/**
  The freshness window. Gossip, request/response, DHT and setup messages each
  carry a date in whole seconds, and each handler re-implements the same window
  with different machine arithmetic. `InWindow` is the window over unbounded
  integers; the lemmas say when each hand-written form is that window.
*/
module Freshness {
  const U64_MAX: int := 0xFFFF_FFFF_FFFF_FFFF
  const NANOS_PER_SEC: int := 1_000_000_000

  type U64 = n: int | 0 <= n <= U64_MAX

  type Nanos = n: int | 0 <= n < NANOS_PER_SEC

  /** `std::time::Duration`, ordered by seconds first and nanoseconds second. */
  datatype Duration = Duration(secs: U64, nanos: Nanos)

  predicate LongerThan(a: Duration, b: Duration) {
    a.secs > b.secs || (a.secs == b.secs && a.nanos > b.nanos)
  }

  function FromSecs(s: U64): Duration {
    Duration(s, 0)
  }

  /** `u64` addition as compiled without overflow checks. */
  function WrappingAdd(a: U64, b: U64): U64 {
    (a + b) % (U64_MAX + 1)
  }

  function SaturatingSub(a: U64, b: U64): U64 {
    if a < b then 0 else a - b
  }

  /** One reading of the system clock, as `duration_since(UNIX_EPOCH)` reports it. */
  datatype Clock = BeforeEpoch | SinceEpoch(secs: U64)

  function SecsOrDefault(now: Clock): U64 {
    if now.SinceEpoch? then now.secs else 0
  }

  /** Clock readings taken one after another on a clock that does not step back. */
  predicate NotAfter(earlier: Clock, later: Clock) {
    SecsOrDefault(earlier) <= SecsOrDefault(later)
  }

  // --- the hand-written forms ---

  /** Future check by addition, age check by comparing durations, one reading. */
  predicate GossipAccepts(date: U64, now: Clock, maxAge: Duration, skew: Duration) {
    var nowSecs := SecsOrDefault(now);
    && !(date > WrappingAdd(nowSecs, skew.secs))
    && !LongerThan(FromSecs(SaturatingSub(nowSecs, date)), maxAge)
  }

  predicate NotFromFuture(date: U64, now: Clock, skew: Duration) {
    !(date > WrappingAdd(SecsOrDefault(now), skew.secs))
  }

  predicate NotStale(date: U64, now: Clock, maxAge: Duration) {
    !LongerThan(FromSecs(SaturatingSub(SecsOrDefault(now), date)), maxAge)
  }

  /** Requests and responses: the two checks read the clock separately. */
  predicate ReqRespAccepts(date: U64, first: Clock, second: Clock, maxAge: Duration, skew: Duration) {
    NotFromFuture(date, first, skew) && NotStale(date, second, maxAge)
  }

  datatype SetupDate = Fresh | Stale | Future

  /** Setup messages: age first, then the future distance as a duration. */
  function SetupCheck(date: U64, now: Clock, maxAge: Duration, skew: Duration): SetupDate {
    var nowSecs := SecsOrDefault(now);
    if LongerThan(FromSecs(SaturatingSub(nowSecs, date)), maxAge) then Stale
    else if date > nowSecs && LongerThan(FromSecs(date - nowSecs), skew) then Future
    else Fresh
  }

  datatype DhtDate = DateOk | DateIsMax | ClockBeforeEpoch | DateInFuture | DateTooOld

  /** DHT records: refuses the largest date and a clock before the epoch. */
  function DhtCheck(date: U64, now: Clock, maxAge: Duration, skew: Duration): DhtDate {
    if date == U64_MAX then DateIsMax
    else if now.BeforeEpoch? then ClockBeforeEpoch
    else if date > WrappingAdd(now.secs, skew.secs) then DateInFuture
    else if SaturatingSub(now.secs, date) > maxAge.secs then DateTooOld
    else DateOk
  }

  // --- the window they are meant to be ---

  ghost predicate InWindow(date: int, nowSecs: int, maxAge: Duration, skew: Duration) {
    nowSecs - maxAge.secs <= date <= nowSecs + skew.secs
  }

  ghost predicate NoOverflow(now: Clock, skew: Duration) {
    SecsOrDefault(now) + skew.secs <= U64_MAX
  }

  /** The setup form never adds, so it is the window for every reading. */
  lemma SetupIsWindow(date: U64, now: Clock, maxAge: Duration, skew: Duration)
    ensures SetupCheck(date, now, maxAge, skew) == Fresh
            <==> InWindow(date, SecsOrDefault(now), maxAge, skew)
  {
  }

  /** At one reading without overflow the five forms accept the same dates. */
  lemma FormsAgree(date: U64, now: Clock, maxAge: Duration, skew: Duration)
    requires now.SinceEpoch? && NoOverflow(now, skew)
    ensures InWindow(date, now.secs, maxAge, skew)
            <==> GossipAccepts(date, now, maxAge, skew)
    ensures InWindow(date, now.secs, maxAge, skew)
            <==> ReqRespAccepts(date, now, now, maxAge, skew)
    ensures InWindow(date, now.secs, maxAge, skew)
            <==> SetupCheck(date, now, maxAge, skew) == Fresh
    ensures DhtCheck(date, now, maxAge, skew) == DateOk
            <==> date != U64_MAX && InWindow(date, now.secs, maxAge, skew)
  {
  }

  /** The DHT form without provisos: the window, cut off at the sum of reading and skew in 64 bits. */
  lemma DhtCheckIff(date: U64, now: Clock, maxAge: Duration, skew: Duration)
    ensures DhtCheck(date, now, maxAge, skew) == DateOk
            <==> && now.SinceEpoch? && date != 0xFFFF_FFFF_FFFF_FFFF
                 && InWindow(date, now.secs, maxAge, skew)
                 && date <= (now.secs + skew.secs) % 0x1_0000_0000_0000_0000
  {
  }

  /**
    The overflow proviso is exact: on overflow the adding forms refuse a message
    dated at the very reading it is checked with, which setup accepts.
  */
  lemma AgreementIffNoOverflow(now: Clock, maxAge: Duration, skew: Duration)
    ensures (forall date: U64 ::
               GossipAccepts(date, now, maxAge, skew) <==> SetupCheck(date, now, maxAge, skew) == Fresh)
            <==> NoOverflow(now, skew)
  {
    var nowSecs := SecsOrDefault(now);
    if NoOverflow(now, skew) {
      assert WrappingAdd(nowSecs, skew.secs) == nowSecs + skew.secs;
    } else {
      assert WrappingAdd(nowSecs, skew.secs) == nowSecs + skew.secs - (U64_MAX + 1);
      assert SetupCheck(nowSecs, now, maxAge, skew) == Fresh;
      assert !GossipAccepts(nowSecs, now, maxAge, skew);
    }
  }

  /**
    The clock proviso is exact too: before the epoch DHT refuses every date while
    the other forms fall back to reading zero and accept date zero.
  */
  lemma DhtAgreementIffSinceEpoch(now: Clock, maxAge: Duration, skew: Duration)
    requires NoOverflow(now, skew)
    ensures (forall date: U64 :: date != U64_MAX ==>
               (DhtCheck(date, now, maxAge, skew) == DateOk <==> GossipAccepts(date, now, maxAge, skew)))
            <==> now.SinceEpoch?
  {
    if now.SinceEpoch? {
      forall date: U64 | date != U64_MAX
        ensures DhtCheck(date, now, maxAge, skew) == DateOk <==> GossipAccepts(date, now, maxAge, skew)
      {
        FormsAgree(date, now, maxAge, skew);
      }
    } else {
      assert GossipAccepts(0, now, maxAge, skew);
      assert DhtCheck(0, now, maxAge, skew) != DateOk;
    }
  }

  /** All the forms accept the same dates, DHT's largest date aside, exactly under both provisos. */
  lemma AllFormsAgreeIff(now: Clock, maxAge: Duration, skew: Duration)
    ensures (forall date: U64 ::
               && (GossipAccepts(date, now, maxAge, skew) <==> SetupCheck(date, now, maxAge, skew) == Fresh)
               && (GossipAccepts(date, now, maxAge, skew) <==> ReqRespAccepts(date, now, now, maxAge, skew))
               && (date != U64_MAX ==>
                     (DhtCheck(date, now, maxAge, skew) == DateOk <==> GossipAccepts(date, now, maxAge, skew))))
            <==> now.SinceEpoch? && NoOverflow(now, skew)
  {
    AgreementIffNoOverflow(now, maxAge, skew);
    if NoOverflow(now, skew) {
      DhtAgreementIffSinceEpoch(now, maxAge, skew);
    }
  }

  /**
    Two readings: acceptance implies the single window at the later reading, and
    the two readings admit exactly the dates inside that window that were not yet
    in the future at the earlier one.
  */
  lemma TwoReadings(date: U64, first: Clock, second: Clock, maxAge: Duration, skew: Duration)
    requires NotAfter(first, second) && NoOverflow(first, skew)
    ensures ReqRespAccepts(date, first, second, maxAge, skew)
            <==> InWindow(date, SecsOrDefault(second), maxAge, skew)
                 && date <= SecsOrDefault(first) + skew.secs
  {
  }
}
