/**
 * The fixed-window rate limiter: one shared counter per key and aligned minute. Times are whole
 * nanoseconds since the zero time, to which windows are aligned as well.
 */
module RateLimit {
  import opened Domain

  const SECOND: nat := 1_000_000_000
  const MINUTE: nat := 60 * SECOND

  type Nanos = nat

  function Window(now: Nanos): nat {
    now / MINUTE
  }

  function WindowEnd(now: Nanos): Nanos {
    (now / MINUTE + 1) * MINUTE
  }

  datatype Decision = Decision(allowed: bool, limit: nat, remaining: nat, retryAfter: nat)

  function SecondsUntil(end: Nanos, now: Nanos): nat {
    if end <= now then 1
    else
      var remaining := end - now;
      AtLeastOne(remaining / SECOND + if remaining % SECOND != 0 then 1 else 0)
  }

  function AtLeastOne(n: nat): nat {
    if n < 1 then 1 else n
  }

  /** The least whole number of seconds, at least one, after which the time falls in a later window. */
  lemma RetryAfterIsLeast(now: Nanos, n: nat)
    ensures 1 <= SecondsUntil(WindowEnd(now), now) <= 60
    ensures n >= SecondsUntil(WindowEnd(now), now) <==> n >= 1 && Window(now + n * SECOND) > Window(now)
  {
    var left := WindowEnd(now) - now;
    assert now == Window(now) * MINUTE + now % MINUTE && left == MINUTE - now % MINUTE;
    LaterWindow(now, n * SECOND);
  }

  /** That is what is left of the minute, a second begun counted in full. */
  lemma RetryAfterIsTheRest(now: Nanos)
    ensures SecondsUntil(WindowEnd(now), now) == 60 - now / 1_000_000_000 % 60
  {
    var seconds, nanos := now / 1_000_000_000, now % 1_000_000_000;
    var minute, second := seconds / 60, seconds % 60;
    assert now == minute * 60_000_000_000 + second * 1_000_000_000 + nanos;
    assert Window(now) == minute;
  }

  lemma LaterWindow(now: Nanos, d: nat)
    ensures Window(now + d) > Window(now) <==> now + d >= WindowEnd(now)
  {
  }

  // ---------------------------------------------------------------------------
  // Runs of requests
  // ---------------------------------------------------------------------------

  // How the store calls of a request fail: not at all, before the counter went up, or after.
  datatype Fault = Fine | Uncounted | Unexpired

  datatype Request = Request(key: string, time: Nanos, fault: Fault)

  // The request went into the counter of the key and the window.
  predicate In(r: Request, key: string, window: nat) {
    r.key == key && Window(r.time) == window && r.fault != Uncounted
  }

  // How many of the first n requests did.
  function Earlier(rs: seq<Request>, n: nat, key: string, window: nat): nat
    requires n <= |rs|
  {
    if n == 0 then 0 else Earlier(rs, n - 1, key, window) + if In(rs[n - 1], key, window) then 1 else 0
  }

  // The window of a request is not used up.
  predicate Allowed(rs: seq<Request>, i: nat, limit: nat)
    requires i < |rs|
  {
    Earlier(rs, i, rs[i].key, Window(rs[i].time)) < limit
  }

  // The middleware lets a request through when the store fails it.
  predicate Through(rs: seq<Request>, i: nat, limit: nat)
    requires i < |rs|
  {
    rs[i].fault != Fine || Allowed(rs, i, limit)
  }

  // The middleware's part: what the limiter answered lets the request through.
  predicate Passes(answer: Option<Decision>) {
    answer.Some? ==> answer.value.allowed
  }

  // The clock never went back.
  predicate InOrder(rs: seq<Request>) {
    forall i, j :: 0 <= i < j < |rs| ==> rs[i].time <= rs[j].time
  }

  // None is refused that should pass, and with a clock that does not go back none passes that should not.
  predicate AnswerOk(rs: seq<Request>, answers: seq<Option<Decision>>, limit: nat, i: nat)
    requires |rs| == |answers|
  {
    i < |rs| ==>
      && (Through(rs, i, limit) ==> Passes(answers[i]))
      && (InOrder(rs) ==> (Passes(answers[i]) <==> Through(rs, i, limit)))
  }

  lemma AnswersStayOk(rs: seq<Request>, answers: seq<Option<Decision>>, limit: nat, r: Request,
                      answer: Option<Decision>, i: nat)
    requires |rs| == |answers| && i < |rs| && AnswerOk(rs, answers, limit, i)
    ensures AnswerOk(rs + [r], answers + [answer], limit, i)
  {
    EarlierInPrefix(rs, r, i, rs[i].key, Window(rs[i].time));
    if InOrder(rs + [r]) {
      assert forall j :: 0 <= j < |rs| ==> (rs + [r])[j] == rs[j];
    }
  }

  ghost predicate AnswersOk(rs: seq<Request>, answers: seq<Option<Decision>>, limit: nat) {
    && |rs| == |answers|
    && forall i: nat {:trigger AnswerOk(rs, answers, limit, i)} :: AnswerOk(rs, answers, limit, i)
  }

  lemma OneAnswerMore(rs: seq<Request>, answers: seq<Option<Decision>>, limit: nat, r: Request,
                      answer: Option<Decision>)
    requires AnswersOk(rs, answers, limit) && AnswerOk(rs + [r], answers + [answer], limit, |rs|)
    ensures AnswersOk(rs + [r], answers + [answer], limit)
  {
    forall i: nat ensures AnswerOk(rs + [r], answers + [answer], limit, i) {
      if i < |rs| {
        assert AnswerOk(rs, answers, limit, i);
        AnswersStayOk(rs, answers, limit, r, answer, i);
      }
    }
  }

  lemma {:induction false} EarlierInPrefix(rs: seq<Request>, r: Request, n: nat, key: string, window: nat)
    requires n <= |rs|
    ensures Earlier(rs + [r], n, key, window) == Earlier(rs, n, key, window)
  {
    if n > 0 {
      EarlierInPrefix(rs, r, n - 1, key, window);
    }
  }

  // ---------------------------------------------------------------------------
  // One request
  // ---------------------------------------------------------------------------

  class Limiter {
    const limit: nat
    var counters: map<(string, nat), nat>
    ghost var seen: seq<Request>
    ghost var answers: seq<Option<Decision>>  // to what was seen, None where the store failed
    ghost var clock: Nanos                    // the latest time seen

    constructor (limit: nat)
      ensures Valid() && this.limit == limit && seen == [] && answers == [] && clock == 0
    {
      this.limit, counters, seen, answers, clock := limit, map[], [], [], 0;
    }

    function Count(key: string, window: nat): nat
      reads this
    {
      if (key, window) in counters then counters[(key, window)] else 0
    }

    // Counters of the present window are exact; those of past windows may have expired.
    ghost predicate Valid()
      reads this
    {
      Counted() && AnswersOk(seen, answers, limit)
    }

    ghost predicate Counted()
      reads this
    {
      && (forall key: string, window: nat {:trigger CountOk(key, window)} :: CountOk(key, window))
      && Latest(seen, clock)
    }

    ghost predicate CountOk(key: string, window: nat)
      reads this
    {
      && Count(key, window) <= Earlier(seen, |seen|, key, window)
      && (window >= Window(clock) ==> Count(key, window) == Earlier(seen, |seen|, key, window))
    }

    /** The store drops counters at the end of their windows, some time or other. */
    method Expire(gone: set<(string, nat)>)
      requires Valid() && forall k :: k in gone ==> k.1 < Window(clock)
      modifies this`counters
      ensures Valid() && counters == old(counters) - gone
    {
      counters := counters - gone;
      forall k: string, w: nat ensures CountOk(k, w) {
        assert old(CountOk(k, w));
      }
    }

    /**
     * A store call that fails leaves no decision. Otherwise the decision follows from all requests seen
     * before, unless the clock went back: then requests may be let through that the run does not allow,
     * but none that it allows is refused.
     */
    method Evaluate(key: string, now: Nanos, fault: Fault) returns (r: Option<Decision>)
      requires Valid()
      modifies this
      ensures Valid()
      ensures r.None? <==> fault != Fine
      ensures seen == old(seen) + [Request(key, now, fault)] && answers == old(answers) + [r]
      ensures clock == if now > old(clock) then now else old(clock)
      ensures r.Some? ==> r.value.limit == limit && r.value.retryAfter == SecondsUntil(WindowEnd(now), now)
      ensures r.Some? && Allowed(seen, |seen| - 1, limit) ==> r.value.allowed
      ensures r.Some? && now >= old(clock) ==>
                && (r.value.allowed <==> Allowed(seen, |seen| - 1, limit))
                && r.value.remaining == (if Earlier(seen, |seen|, key, Window(now)) < limit
                                         then limit - Earlier(seen, |seen|, key, Window(now)) else 0)
    {
      ghost var before, given := seen, answers;
      var count := Increment(key, now, fault);
      label Incremented:
      var remaining := if limit > count then limit - count else 0;
      r := if fault != Fine then None
        else Some(Decision(count <= limit, limit, remaining, SecondsUntil((now / MINUTE + 1) * MINUTE, now)));
      answers := given + [r];
      assert Counted() by {
        forall k: string, w: nat ensures CountOk(k, w) {
          assert old@Incremented(CountOk(k, w));
        }
      }
      EarlierInPrefix(before, Request(key, now, fault), |before|, key, Window(now));
      LatestIsKept(before, old(clock), Request(key, now, fault));
      OneAnswerMore(before, given, limit, Request(key, now, fault), r);
    }

    // The store's part: the counter of the key and the window goes up.
    method Increment(key: string, now: Nanos, fault: Fault) returns (count: nat)
      requires Counted()
      modifies this`counters, this`seen, this`clock
      ensures Counted() && seen == old(seen) + [Request(key, now, fault)]
      ensures clock == if now > old(clock) then now else old(clock)
      ensures fault != Uncounted ==> count <= Earlier(seen, |seen|, key, Window(now))
      ensures fault != Uncounted && now >= old(clock) ==> count == Earlier(seen, |seen|, key, Window(now))
    {
      count := Count(key, now / MINUTE) + 1;
      ghost var before := seen;
      assert CountOk(key, now / MINUTE);
      seen := before + [Request(key, now, fault)];
      clock := if now > clock then now else clock;
      if fault != Uncounted {
        counters := counters[(key, now / MINUTE) := count];
      }
      forall k: string, w: nat ensures CountOk(k, w) {
        assert old(CountOk(k, w));
        assert Window(old(clock)) <= Window(clock);
        EarlierInPrefix(before, Request(key, now, fault), |before|, k, w);
      }
      EarlierInPrefix(before, Request(key, now, fault), |before|, key, now / MINUTE);
      LatestIsKept(before, old(clock), Request(key, now, fault));
    }
  }

  // The clock shows the latest request, or none yet.
  predicate Latest(rs: seq<Request>, clock: Nanos) {
    clock == 0 || exists i :: 0 <= i < |rs| && rs[i].time == clock
  }

  lemma LatestIsKept(rs: seq<Request>, clock: Nanos, r: Request)
    requires Latest(rs, clock)
    ensures Latest(rs + [r], if r.time > clock then r.time else clock)
    ensures InOrder(rs + [r]) ==> r.time >= clock
  {
    var all := rs + [r];
    assert all[|rs|] == r;
    if clock != 0 {
      var i :| 0 <= i < |rs| && rs[i].time == clock;
      assert all[i] == rs[i];
    }
  }

  // ---------------------------------------------------------------------------
  // How many pass
  // ---------------------------------------------------------------------------

  // How many of the first n requests are counted in a window and allowed.
  function Passed(rs: seq<Request>, n: nat, limit: nat, key: string, window: nat): nat
    requires n <= |rs|
  {
    if n == 0 then 0
    else Passed(rs, n - 1, limit, key, window) + if In(rs[n - 1], key, window) && Allowed(rs, n - 1, limit)
      then 1 else 0
  }

  predicate Within(r: Request, key: string, from: Nanos, span: nat) {
    r.key == key && from <= r.time < from + span
  }

  // How many of the first n requests are let through within a span of time, and how many the store failed in it.
  function ThroughWithin(rs: seq<Request>, n: nat, limit: nat, key: string, from: Nanos, span: nat): nat
    requires n <= |rs|
  {
    if n == 0 then 0
    else
      ThroughWithin(rs, n - 1, limit, key, from, span)
      + if Within(rs[n - 1], key, from, span) && Through(rs, n - 1, limit) then 1 else 0
  }

  function FaultsWithin(rs: seq<Request>, n: nat, key: string, from: Nanos, span: nat): nat
    requires n <= |rs|
  {
    if n == 0 then 0
    else FaultsWithin(rs, n - 1, key, from, span) + if Within(rs[n - 1], key, from, span) && rs[n - 1].fault != Fine
      then 1 else 0
  }

  // How many of the first n requests passed within a span of time.
  function PassedWithin(rs: seq<Request>, answers: seq<Option<Decision>>, n: nat, key: string, from: Nanos,
                        span: nat): nat
    requires n <= |rs| == |answers|
  {
    if n == 0 then 0
    else
      PassedWithin(rs, answers, n - 1, key, from, span)
      + if Within(rs[n - 1], key, from, span) && Passes(answers[n - 1]) then 1 else 0
  }

  /** Of k requests counted under one key in an aligned minute exactly the first min(limit, k) are allowed. */
  lemma {:induction false} ExactlyTheFirst(rs: seq<Request>, n: nat, limit: nat, key: string, window: nat)
    requires n <= |rs|
    ensures Passed(rs, n, limit, key, window) == Least(limit, Earlier(rs, n, key, window))
  {
    if n > 0 {
      ExactlyTheFirst(rs, n - 1, limit, key, window);
    }
  }

  /** Any span of 60 seconds lets at most twice the limit of one key through, and whatever the store failed. */
  lemma AtMostTwice(rs: seq<Request>, n: nat, limit: nat, key: string, from: Nanos)
    requires n <= |rs|
    ensures ThroughWithin(rs, n, limit, key, from, 60_000_000_000) <=
            2 * limit + FaultsWithin(rs, n, key, from, 60_000_000_000)
  {
    SpanMeetsTwo(rs, n, limit, key, from);
    ExactlyTheFirst(rs, n, limit, key, Window(from));
    ExactlyTheFirst(rs, n, limit, key, Window(from) + 1);
  }

  lemma {:induction false} PassedIsThrough(rs: seq<Request>, answers: seq<Option<Decision>>, n: nat, limit: nat,
                                           key: string, from: Nanos, span: nat)
    requires AnswersOk(rs, answers, limit) && n <= |rs| && InOrder(rs)
    ensures PassedWithin(rs, answers, n, key, from, span) == ThroughWithin(rs, n, limit, key, from, span)
  {
    if n > 0 {
      PassedIsThrough(rs, answers, n - 1, limit, key, from, span);
      assert AnswerOk(rs, answers, limit, n - 1);
    }
  }

  /** So much for the answers the limiter has given: while the clock does not go back they keep to that bound. */
  lemma LimiterKeepsTheBound(l: Limiter, key: string, from: Nanos)
    requires l.Valid() && InOrder(l.seen)
    ensures PassedWithin(l.seen, l.answers, |l.seen|, key, from, 60_000_000_000) <=
            2 * l.limit + FaultsWithin(l.seen, |l.seen|, key, from, 60_000_000_000)
  {
    PassedIsThrough(l.seen, l.answers, |l.seen|, l.limit, key, from, MINUTE);
    AtMostTwice(l.seen, |l.seen|, l.limit, key, from);
  }

  lemma {:induction false} SpanMeetsTwo(rs: seq<Request>, n: nat, limit: nat, key: string, from: Nanos)
    requires n <= |rs|
    ensures ThroughWithin(rs, n, limit, key, from, MINUTE) <=
            Passed(rs, n, limit, key, Window(from)) + Passed(rs, n, limit, key, Window(from) + 1)
            + FaultsWithin(rs, n, key, from, MINUTE)
  {
    if n > 0 {
      SpanMeetsTwo(rs, n - 1, limit, key, from);
      if from <= rs[n - 1].time < from + MINUTE {
        assert Window(rs[n - 1].time) == Window(from) || Window(rs[n - 1].time) == Window(from) + 1;
      }
    }
  }

  // ---------------------------------------------------------------------------
  // How tight the bound is
  // ---------------------------------------------------------------------------

  // `limit` requests at the last nanosecond of a window, and as many at the first of the next.
  function Burst(limit: nat): seq<Request> {
    seq(2 * limit, i => Request("", if i < limit then MINUTE - 1 else MINUTE, Fine))
  }

  lemma {:induction false} BurstCounts(limit: nat, n: nat)
    requires n <= 2 * limit
    ensures Earlier(Burst(limit), n, "", 0) == Least(n, limit) && Earlier(Burst(limit), n, "", 1) == n - Least(n, limit)
    ensures ThroughWithin(Burst(limit), n, limit, "", MINUTE - 1, 2) == n
        && FaultsWithin(Burst(limit), n, "", MINUTE - 1, 2) == 0
  {
    if n > 0 {
      BurstCounts(limit, n - 1);
      assert Burst(limit)[n - 1] == Request("", if n - 1 < limit then MINUTE - 1 else MINUTE, Fine);
    }
  }

  /** The bound is tight: twice the limit can pass within two nanoseconds, with no store call failing. */
  lemma TwiceIsReached(limit: nat)
    ensures ThroughWithin(Burst(limit), 2 * limit, limit, "", MINUTE - 1, 2) == 2 * limit
    ensures FaultsWithin(Burst(limit), 2 * limit, "", MINUTE - 1, 2) == 0
  {
    BurstCounts(limit, 2 * limit);
  }
}
