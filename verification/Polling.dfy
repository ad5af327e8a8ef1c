/** internal/enrollment: the device-flow polling loop, its back-off (RFC 8628, section 3.5) and the
    number of requests it sends. Times are in nanoseconds. */
module Polling {
  const SECOND := 1_000_000_000

  const CEILING := 30 * SECOND

  /** What a poll request comes back with. */
  datatype Reply = Granted | Pending | SlowDown | Denied | Expired | OtherError | TransportError

  /** One turn of the loop as the outside world has it: the sleep is cancelled, or lasts `late`
      longer than asked for; the request takes `took` and brings `reply`. */
  datatype Turn = Cancelled | Turn(late: nat, took: nat, reply: Reply)

  datatype Result = Approved | Failed | TimedOut | Interrupted

  /** The requests of a whole poll: when each was sent, the interval slept before it, and the end. */
  datatype Trace = Trace(sent: seq<int>, slept: seq<int>, result: Result)

  /** A timer for a negative duration fires at once. */
  function Sleep(interval: int): nat {
    if interval < 0 then 0 else interval
  }

  function SlowedDown(interval: int): int {
    if interval + 5 * SECOND > CEILING then CEILING else interval + 5 * SECOND
  }

  /** Whether the loop goes on after a reply. */
  predicate GoesOn(reply: Reply) {
    reply.Pending? || reply.SlowDown?
  }

  /** The loop from `now` on; a world that has no more turns has cancelled the context. */
  function From(now: int, deadline: int, interval: int, turns: seq<Turn>): Trace
    decreases |turns|
  {
    if now >= deadline then Trace([], [], TimedOut)
    else if turns == [] || turns[0].Cancelled? then Trace([], [], Interrupted)
    else
      var t := turns[0];
      var at := now + Sleep(interval) + t.late;
      if GoesOn(t.reply) then
        Before(at, interval, From(at + t.took, deadline, NextInterval(interval, t.reply), turns[1..]))
      else
        Trace([at], [interval], if t.reply.Granted? then Approved else Failed)
  }

  /** A request sent before those of `rest`. */
  function Before(at: int, interval: int, rest: Trace): Trace {
    Trace([at] + rest.sent, [interval] + rest.slept, rest.result)
  }

  function NextInterval(interval: int, reply: Reply): int {
    if reply.SlowDown? then SlowedDown(interval) else interval
  }

  function After(sent: seq<int>, slept: seq<int>, rest: Trace): Trace {
    Trace(sent + rest.sent, slept + rest.slept, rest.result)
  }

  lemma AfterBefore(sent: seq<int>, slept: seq<int>, at: int, interval: int, rest: Trace)
    ensures After(sent, slept, Before(at, interval, rest)) == After(sent + [at], slept + [interval], rest)
  {
    assert sent + ([at] + rest.sent) == sent + [at] + rest.sent;
    assert slept + ([interval] + rest.slept) == slept + [interval] + rest.slept;
  }

  /** `Poll`, for an authorization that expires in `expiresIn` seconds. */
  method Poll(start: int, expiresIn: int, interval: int, turns: seq<Turn>) returns (trace: Trace)
    ensures trace == From(start, start + expiresIn * SECOND, interval * SECOND, turns)
  {
    var deadline := start + expiresIn * SECOND;
    var now, wait := start, interval * SECOND;
    var sent, slept: seq<int> := [], [];
    var i := 0;
    while now < deadline
      invariant 0 <= i <= |turns|
      invariant After(sent, slept, From(now, deadline, wait, turns[i..]))
             == From(start, deadline, interval * SECOND, turns)
      decreases |turns| - i
    {
      if i == |turns| || turns[i].Cancelled? {
        return Trace(sent, slept, Interrupted);
      }
      var t := turns[i];
      assert turns[i..][0] == t && turns[i..][1..] == turns[i + 1..];
      ghost var later := now + Sleep(wait) + t.late + t.took;
      ghost var rest := From(later, deadline, NextInterval(wait, t.reply), turns[i + 1..]);
      AfterBefore(sent, slept, now + Sleep(wait) + t.late, wait, rest);
      now := now + Sleep(wait) + t.late;
      sent, slept := sent + [now], slept + [wait];
      now := now + t.took;
      i := i + 1;
      match t.reply {
        case Granted =>
          return Trace(sent, slept, Approved);
        case Pending =>
        case SlowDown =>
          wait := wait + 5 * SECOND;
          if wait > CEILING {
            wait := CEILING;
          }
        case _ =>
          return Trace(sent, slept, Failed);
      }
    }
    return Trace(sent, slept, TimedOut);
  }

  // ---- the back-off ----------------------------------------------------

  function SlowDowns(turns: seq<Turn>, n: nat): nat
    requires n <= |turns|
  {
    if n == 0 then 0
    else SlowDowns(turns, n - 1) + if turns[n - 1].Turn? && turns[n - 1].reply.SlowDown? then 1 else 0
  }

  lemma {:induction false} SlowDownsTail(turns: seq<Turn>, n: nat)
    requires 1 <= n <= |turns|
    ensures SlowDowns(turns, n) == SlowDowns(turns, 1) + SlowDowns(turns[1..], n - 1)
  {
    if n > 1 {
      SlowDownsTail(turns, n - 1);
      assert turns[1..][n - 2] == turns[n - 1];
    }
  }

  /** The interval after `k` requests to slow down. */
  function IntervalAfter(interval: int, k: nat): int {
    if k == 0 then interval
    else if interval + k * 5 * SECOND > CEILING then CEILING
    else interval + k * 5 * SECOND
  }

  /** There is one sleep per request, and the one before request `i` is the starting interval raised by
      five seconds for each slow_down so far, but never above thirty. */
  lemma {:induction false} BackOff(now: int, deadline: int, interval: int, turns: seq<Turn>, i: nat)
    requires i < |From(now, deadline, interval, turns).slept|
    ensures |From(now, deadline, interval, turns).slept| == |From(now, deadline, interval, turns).sent| <= |turns|
    ensures From(now, deadline, interval, turns).slept[i] == IntervalAfter(interval, SlowDowns(turns, i))
    decreases |turns|
  {
    SameLength(now, deadline, interval, turns);
    if i > 0 {
      var t := turns[0];
      var at := now + Sleep(interval) + t.late;
      var next := NextInterval(interval, t.reply);
      BackOff(at + t.took, deadline, next, turns[1..], i - 1);
      SlowDownsTail(turns, i);
    }
  }

  lemma {:induction false} SameLength(now: int, deadline: int, interval: int, turns: seq<Turn>)
    ensures |From(now, deadline, interval, turns).slept| == |From(now, deadline, interval, turns).sent| <= |turns|
    decreases |turns|
  {
    if now < deadline && turns != [] && turns[0].Turn? {
      var at := now + Sleep(interval) + turns[0].late;
      SameLength(at + turns[0].took, deadline, NextInterval(interval, turns[0].reply), turns[1..]);
    }
  }

  /** A slow_down lowers the interval exactly when it was above thirty seconds, leaves it at thirty, and
      raises it otherwise; by five seconds, as section 3.5 asks, exactly up to twenty-five. */
  lemma SlowDownLowersExactlyAboveCeiling(interval: int)
    ensures SlowedDown(interval) < interval <==> interval > CEILING
    ensures SlowedDown(interval) > interval <==> interval < CEILING
    ensures SlowedDown(interval) == interval + 5 * SECOND <==> interval <= 25 * SECOND
  {
  }

  lemma IntervalNeverDecreases(interval: int, j: nat, k: nat)
    requires interval <= CEILING && j <= k
    ensures IntervalAfter(interval, j) <= IntervalAfter(interval, k) <= CEILING
  {
  }

  lemma {:induction false} SlowDownsGrow(turns: seq<Turn>, i: nat, j: nat)
    requires i <= j <= |turns|
    ensures SlowDowns(turns, i) <= SlowDowns(turns, j)
    decreases j
  {
    if i < j {
      SlowDownsGrow(turns, i, j - 1);
    }
  }

  /** From a starting interval of at most thirty seconds, no sleep of a poll is shorter than an earlier
      one, and none is longer than thirty seconds. */
  lemma SleepsNeverDecrease(now: int, deadline: int, interval: int, turns: seq<Turn>, i: nat, j: nat)
    requires interval <= CEILING && i <= j < |From(now, deadline, interval, turns).slept|
    ensures From(now, deadline, interval, turns).slept[i] <= From(now, deadline, interval, turns).slept[j] <= CEILING
  {
    BackOff(now, deadline, interval, turns, i);
    BackOff(now, deadline, interval, turns, j);
    SlowDownsGrow(turns, i, j);
    IntervalNeverDecreases(interval, SlowDowns(turns, i), SlowDowns(turns, j));
  }

  /** A request follows a whole sleep: the first one after the start, and every other one after the reply
      to the one before. */
  lemma {:induction false} RequestsFollowSleeps(now: int, deadline: int, interval: int, turns: seq<Turn>, i: nat)
    requires i < |From(now, deadline, interval, turns).sent|
    ensures i < |From(now, deadline, interval, turns).slept| && i < |turns| && turns[i].Turn?
    ensures
      var trace := From(now, deadline, interval, turns);
      var before := if i == 0 then now else trace.sent[i - 1] + (if turns[i - 1].Turn? then turns[i - 1].took else 0);
      before < deadline && trace.sent[i] == before + (if trace.slept[i] < 0 then 0 else trace.slept[i]) + turns[i].late
    decreases |turns|
  {
    SameLength(now, deadline, interval, turns);
    if i > 0 {
      var t := turns[0];
      var at := now + Sleep(interval) + t.late;
      RequestsFollowSleeps(at + t.took, deadline, NextInterval(interval, t.reply), turns[1..], i - 1);
    }
  }

  // ---- the number of requests ------------------------------------------

  function Min(a: int, b: int): int {
    if a <= b then a else b
  }

  function CeilDiv(a: int, b: int): int
    requires b > 0
  {
    (a + b - 1) / b
  }

  /** Consecutive requests are at least the shortest interval apart, so the time left bounds them. */
  lemma {:induction false} RequestsFitTheTimeLeft(now: int, deadline: int, interval: int, turns: seq<Turn>, least: int)
    requires 0 < least <= interval && least <= CEILING
    ensures now < deadline ==> (|From(now, deadline, interval, turns).sent| - 1) * least < deadline - now
    ensures now >= deadline ==> |From(now, deadline, interval, turns).sent| == 0
    decreases |turns|
  {
    if now < deadline && turns != [] && turns[0].Turn? && GoesOn(turns[0].reply) {
      var t := turns[0];
      var next := NextInterval(interval, t.reply);
      var later := now + Sleep(interval) + t.late + t.took;
      var rest := |From(later, deadline, next, turns[1..]).sent|;
      RequestsFitTheTimeLeft(later, deadline, next, turns[1..], least);
      assert |From(now, deadline, interval, turns).sent| == rest + 1;
      if later >= deadline {
        assert rest * least == 0;
      } else {
        assert rest * least == (rest - 1) * least + least;
      }
    }
  }

  /** An authorization with a positive interval is polled at most ceil(ExpiresIn / Interval) times,
      where an interval above thirty seconds counts as thirty. */
  lemma RequestsAreBounded(start: int, expiresIn: nat, interval: int, turns: seq<Turn>)
    requires interval >= 1
    ensures |From(start, start + expiresIn * SECOND, interval * SECOND, turns).sent|
      <= CeilDiv(expiresIn, Min(interval, 30))
  {
    var n := |From(start, start + expiresIn * SECOND, interval * SECOND, turns).sent|;
    var least := Min(interval, 30);
    RequestsFitTheTimeLeft(start, start + expiresIn * SECOND, interval * SECOND, turns, least * SECOND);
    if expiresIn > 0 {
      ScaleDown(n - 1, least, expiresIn);
      DivisionBound(n - 1, least, expiresIn);
    }
  }

  lemma ScaleDown(m: int, b: int, a: int)
    requires m * (b * SECOND) < a * SECOND
    ensures m * b < a
  {
    assert m * (b * SECOND) == (m * b) * SECOND;
  }

  lemma DivisionBound(m: int, b: int, a: int)
    requires b > 0 && m * b < a
    ensures m + 1 <= CeilDiv(a, b)
  {
    var q := CeilDiv(a, b);
    assert q * b >= a;
    assert q <= m ==> q * b <= m * b;
  }

  /** With exact sleeps and instantaneous requests every request is sent less than one interval, and
      so less than thirty seconds, after the deadline. */
  lemma {:induction false} RequestsAreNotLate(now: int, deadline: int, interval: int, turns: seq<Turn>, i: nat)
    requires 0 <= interval <= CEILING
    requires forall j | 0 <= j < |turns| && turns[j].Turn? :: turns[j].late == 0 && turns[j].took == 0
    requires i < |From(now, deadline, interval, turns).sent|
    ensures From(now, deadline, interval, turns).sent[i] < deadline + CEILING
    decreases |turns|
  {
    if i > 0 {
      var t := turns[0];
      var next := NextInterval(interval, t.reply);
      RequestsAreNotLate(now + interval, deadline, next, turns[1..], i - 1);
    }
  }

  /** Section 3.2 makes five seconds the default for a missing interval; here it decodes to zero, and
      then nothing bounds the number of requests before the deadline. */
  lemma {:induction false} MissingIntervalIsUnbounded(now: int, deadline: int, n: nat)
    requires now < deadline
    ensures |From(now, deadline, 0, seq(n, _ => Turn(0, 0, Pending))).sent| == n
  {
    if n > 0 {
      var turns := seq(n, _ => Turn(0, 0, Pending));
      assert turns[1..] == seq(n - 1, _ => Turn(0, 0, Pending));
      MissingIntervalIsUnbounded(now, deadline, n - 1);
    }
  }

  /** The result is decided by the last reply, or by the clock. */
  lemma {:induction false} ResultFollowsLastReply(now: int, deadline: int, interval: int, turns: seq<Turn>)
    ensures
      var trace := From(now, deadline, interval, turns);
      var n := |trace.sent|;
      && n <= |turns|
      && (forall j | 0 <= j < n :: turns[j].Turn?)
      && (forall j | 0 <= j < n - 1 :: GoesOn(turns[j].reply))
      && (trace.result.Approved? <==> n > 0 && turns[n - 1].reply.Granted?)
      && (trace.result.Interrupted? ==> n == |turns| || turns[n].Cancelled?)
      && (trace.result.Failed? <==> n > 0 && !turns[n - 1].reply.Granted? && !GoesOn(turns[n - 1].reply))
    decreases |turns|
  {
    if now < deadline && turns != [] && turns[0].Turn? && GoesOn(turns[0].reply) {
      var t := turns[0];
      var next := NextInterval(interval, t.reply);
      ResultFollowsLastReply(now + Sleep(interval) + t.late + t.took, deadline, next, turns[1..]);
      var rest := turns[1..];
      assert forall j | 0 <= j < |rest| :: rest[j] == turns[j + 1];
      assert forall j | 1 <= j < |turns| :: turns[j] == rest[j - 1];
    }
  }

  /** A poll that is not cancelled comes to an end of its own: it cannot outlast as many turns as the
      bound on the requests allows. */
  lemma PollEndsByItself(start: int, expiresIn: nat, interval: int, turns: seq<Turn>)
    requires interval >= 1 && |turns| > CeilDiv(expiresIn, Min(interval, 30))
    requires forall j | 0 <= j < |turns| :: turns[j].Turn?
    ensures !From(start, start + expiresIn * SECOND, interval * SECOND, turns).result.Interrupted?
  {
    RequestsAreBounded(start, expiresIn, interval, turns);
    ResultFollowsLastReply(start, start + expiresIn * SECOND, interval * SECOND, turns);
  }
}
