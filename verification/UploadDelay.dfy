/** How long a message can wait for its upload while the session is open. The upload loop compares
    `timedelta.seconds` with the interval, and that number starts again at zero every day. */
module UploadDelay {
  import opened PipesChannel

  const DAY := SECONDS_PER_DAY * MICROS_PER_SECOND

  /** The loop passes of an open session: before pass k the other threads put `arrivals[k]`, and pass
      k reads `clock[k]`. */
  function Passes(ch: Channel, clock: seq<int>, arrivals: seq<seq<Line>>, interval: real): Channel
    requires |arrivals| == |clock|
    decreases |clock|
  {
    if clock == [] then ch
    else
      var (next, _) := Iteration(ch.(queue := ch.queue + arrivals[0]), clock[0], false, interval);
      Passes(next, clock[1..], arrivals[1..], interval)
  }

  /** Consecutive clock readings are at least one second (the sleep) and at most `most` apart. */
  ghost predicate Ticks(clock: seq<int>, most: int) {
    forall i :: 0 < i < |clock| ==> MICROS_PER_SECOND <= clock[i] - clock[i - 1] <= most
  }

  /** The longest step between two readings that cannot carry the elapsed seconds past a full day
      before they exceed the interval. */
  function LongestSafeTick(interval: real): int {
    DAY - (interval.Floor + 1) * MICROS_PER_SECOND
  }

  /** The elapsed time the code looks at, in microseconds: what is left of it after whole days. */
  function PartialDay(now: int, last: int): int {
    (now - last) % DAY
  }

  lemma DueMeans(now: int, last: int, interval: real)
    ensures Due(now, last, interval) <==> PartialDay(now, last) >= (interval.Floor + 1) * MICROS_PER_SECOND
  {
    var d := now - last;
    var days := d / DAY;
    var r := PartialDay(now, last);
    assert d == days * DAY + r;
    assert d / MICROS_PER_SECOND == days * SECONDS_PER_DAY + r / MICROS_PER_SECOND;
    assert 0 <= r / MICROS_PER_SECOND < SECONDS_PER_DAY;
    ModOfSum(days, r / MICROS_PER_SECOND);
    assert ElapsedSeconds(now, last) == r / MICROS_PER_SECOND;
  }

  lemma ModOfSum(days: int, s: int)
    requires 0 <= s < SECONDS_PER_DAY
    ensures (days * SECONDS_PER_DAY + s) % SECONDS_PER_DAY == s
  {
  }

  /** A pass that is not due keeps the elapsed part growing by the next tick, without wrapping. */
  lemma NotDueGrows(now: int, next: int, last: int, interval: real)
    requires !Due(now, last, interval)
    requires MICROS_PER_SECOND <= next - now <= LongestSafeTick(interval)
    ensures PartialDay(next, last) == PartialDay(now, last) + (next - now)
  {
    DueMeans(now, last, interval);
    var r := PartialDay(now, last);
    var days := (now - last) / DAY;
    assert next - last == days * DAY + (r + (next - now));
    assert 0 <= r + (next - now) < DAY;
  }

  /** With safe ticks, some pass among the first `Floor(interval)` + 2 is due. */
  lemma {:induction false} DueInTime(clock: seq<int>, last: int, interval: real, seen: nat)
    requires 0.0 <= interval && Ticks(clock, LongestSafeTick(interval))
    requires seen <= interval.Floor + 1 && |clock| + seen >= interval.Floor + 2 && clock != []
    requires PartialDay(clock[0], last) >= seen * MICROS_PER_SECOND
    ensures exists k :: 0 <= k < |clock| && k + seen <= interval.Floor + 1 && Due(clock[k], last, interval)
    decreases |clock|
  {
    DueMeans(clock[0], last, interval);
    if Due(clock[0], last, interval) {
    } else {
      assert seen < interval.Floor + 1;
      NotDueGrows(clock[0], clock[1], last, interval);
      var rest := clock[1..];
      assert forall i :: 0 <= i < |rest| ==> rest[i] == clock[i + 1];
      DueInTime(rest, last, interval, seen + 1);
      var k :| 0 <= k < |rest| && k + seen + 1 <= interval.Floor + 1 && Due(rest[k], last, interval);
      assert Due(clock[k + 1], last, interval);
    }
  }

  /** Once something has been delivered it stays delivered, and the queue only moves forward. */
  lemma {:induction false} PassesExtend(ch: Channel, clock: seq<int>, arrivals: seq<seq<Line>>, interval: real)
    requires |arrivals| == |clock| && Numbered(ch)
    ensures Delivered(ch.chunks) <= Delivered(Passes(ch, clock, arrivals, interval).chunks)
    decreases |clock|
  {
    if clock == [] {
    } else {
      var full := ch.(queue := ch.queue + arrivals[0]);
      var (next, _) := Iteration(full, clock[0], false, interval);
      IterationKeepsMessages(full, clock[0], false, interval);
      BatchDelivered(full.(queue := []), full.queue, clock[0]);
      PassesExtend(next, clock[1..], arrivals[1..], interval);
    }
  }

  lemma {:induction false} UploadedAtDuePass(
      ch: Channel, clock: seq<int>, arrivals: seq<seq<Line>>, interval: real, k: nat)
    requires |arrivals| == |clock| && Numbered(ch) && k < |clock|
    requires ch.queue + arrivals[0] != []
    requires Due(clock[k], ch.lastUpload, interval)
    ensures Delivered(ch.chunks) + ch.queue + arrivals[0] <= Delivered(Passes(ch, clock, arrivals, interval).chunks)
    decreases k
  {
    var full := ch.(queue := ch.queue + arrivals[0]);
    var (next, _) := Iteration(full, clock[0], false, interval);
    assert Delivered(ch.chunks) + full.queue == Delivered(ch.chunks) + ch.queue + arrivals[0];
    IterationKeepsMessages(full, clock[0], false, interval);
    BatchDelivered(full.(queue := []), full.queue, clock[0]);
    if Due(clock[0], ch.lastUpload, interval) {
      PassesExtend(next, clock[1..], arrivals[1..], interval);
    } else {
      assert next == full;
      UploadedAtDuePass(next, clock[1..], arrivals[1..], interval, k - 1);
      var done := Delivered(Passes(next, clock[1..], arrivals[1..], interval).chunks);
      assert Delivered(ch.chunks) + full.queue <= Delivered(ch.chunks) + full.queue + arrivals[1] <= done;
    }
  }

  /** While the ticks are safe, whatever is in the queue at some pass is uploaded at most
      `Floor(interval)` + 1 passes later, however long ago the last upload was. */
  lemma {:induction false} UploadDelayBounded(ch: Channel, clock: seq<int>, arrivals: seq<seq<Line>>, interval: real)
    requires 0.0 <= interval && Numbered(ch)
    requires |clock| == |arrivals| == interval.Floor + 2
    requires Ticks(clock, LongestSafeTick(interval))
    requires ch.queue + arrivals[0] != []
    ensures Delivered(ch.chunks) + ch.queue + arrivals[0] <= Delivered(Passes(ch, clock, arrivals, interval).chunks)
  {
    DueInTime(clock, ch.lastUpload, interval, 0);
    var k :| 0 <= k < |clock| && Due(clock[k], ch.lastUpload, interval);
    UploadedAtDuePass(ch, clock, arrivals, interval, k);
  }

  // ----- the bound on the ticks is the exact one -----

  ghost predicate NeverDue(clock: seq<int>, last: int, interval: real) {
    forall i :: 0 <= i < |clock| ==> !Due(clock[i], last, interval)
  }

  /** Readings on the last microsecond before the interval has passed, then one tick that is a microsecond
      too long, then every second: no pass of the first `Floor(interval)` + 2 is due. */
  lemma LateReadings(last: int, interval: real) returns (clock: seq<int>)
    requires 0.0 <= interval && interval.Floor + 1 < SECONDS_PER_DAY
    ensures |clock| == interval.Floor + 2 && Ticks(clock, LongestSafeTick(interval) + 1)
    ensures NeverDue(clock, last, interval)
  {
    var n := interval.Floor + 1;
    var top := n * MICROS_PER_SECOND - 1;
    clock := [last + top] + seq(n, i requires 0 <= i < n => last + DAY + i * MICROS_PER_SECOND);
    forall i | 0 <= i < |clock| ensures !Due(clock[i], last, interval) {
      DueMeans(clock[i], last, interval);
      if i > 0 {
        assert clock[i] - last == DAY + (i - 1) * MICROS_PER_SECOND;
        assert 0 <= (i - 1) * MICROS_PER_SECOND < DAY;
      }
    }
  }

  /** The delay of at most `Floor(interval)` + 1 passes is guaranteed if and only if no tick is longer than
      `LongestSafeTick`; one microsecond more is too much. */
  lemma DelayBoundIsExact(interval: real, most: int)
    requires 0.0 <= interval && interval.Floor + 1 < SECONDS_PER_DAY
    ensures (forall clock: seq<int>, last: int :: |clock| == interval.Floor + 2 && Ticks(clock, most) ==>
               !NeverDue(clock, last, interval))
       <==> most <= LongestSafeTick(interval)
  {
    if most <= LongestSafeTick(interval) {
      forall clock: seq<int>, last: int | |clock| == interval.Floor + 2 && Ticks(clock, most)
        ensures !NeverDue(clock, last, interval)
      {
        DueInTime(clock, last, interval, 0);
      }
    } else {
      var clock := LateReadings(0, interval);
      assert Ticks(clock, most) && NeverDue(clock, 0, interval);
    }
  }

  // ----- when messages can wait for ever -----

  /** The smallest bound on the ticks under which the passes can miss the due times for ever. With an
      interval below one second only ticks of a whole day go unnoticed. With one of 86398 seconds a tick
      must skip a whole second, and only with 12 spare microseconds per tick the readings get there. */
  function StarvingTick(interval: real): int {
    if interval.Floor == 0 then DAY
    else if interval.Floor == SECONDS_PER_DAY - 2 then LongestSafeTick(interval) + 12
    else LongestSafeTick(interval) + 1
  }

  lemma AtLeastTwice(f: nat, most: int)
    requires 1 <= f && 2 * MICROS_PER_SECOND + 1 <= most
    ensures (f + 1) * MICROS_PER_SECOND - 1 <= f * most
    decreases f
  {
    if f > 1 {
      AtLeastTwice(f - 1, most);
      assert f * most == (f - 1) * most + most;
    }
  }

  /** From the last microsecond before the interval has passed, the starving tick leads back to a point
      from which that microsecond can be reached again in `Floor(interval)` ticks. */
  lemma RoundFits(interval: real)
    requires 1.0 <= interval && interval.Floor + 1 < SECONDS_PER_DAY
    ensures var (f, most) := (interval.Floor, StarvingTick(interval));
      var top := (f + 1) * MICROS_PER_SECOND - 1;
      var low := top + most - DAY;
      0 <= low < MICROS_PER_SECOND && f * MICROS_PER_SECOND <= top - low && top <= f * most
  {
    var f := interval.Floor;
    if f < SECONDS_PER_DAY - 2 {
      AtLeastTwice(f, StarvingTick(interval));
    }
  }

  /** One tick of a climb over `gap` in `climb` ticks. */
  function ClimbTick(climb: nat, gap: int, most: int): int {
    var spare := gap - (climb - 1) * MICROS_PER_SECOND;
    if most < spare then most else spare
  }

  lemma ClimbFits(climb: nat, gap: int, most: int)
    requires 0 < climb && MICROS_PER_SECOND <= most && climb * MICROS_PER_SECOND <= gap <= climb * most
    ensures var tick := ClimbTick(climb, gap, most);
      && MICROS_PER_SECOND <= tick <= most
      && (climb - 1) * MICROS_PER_SECOND <= gap - tick <= (climb - 1) * most
  {
    assert climb * most == (climb - 1) * most + most;
    TimesGrows(climb - 1, MICROS_PER_SECOND, most);
  }

  lemma {:induction false} TimesGrows(n: nat, a: int, b: int)
    requires a <= b
    ensures n * a <= n * b
  {
    if n > 0 {
      TimesGrows(n - 1, a, b);
      assert n * a == (n - 1) * a + a && n * b == (n - 1) * b + b;
    }
  }

  /** Readings that reach the last microsecond before the interval has passed in `climb` ticks, jump over
      the due times from there, and start again. */
  lemma {:induction false} StarvingReadings(now: int, last: int, interval: real, climb: nat, n: nat)
    returns (clock: seq<int>)
    requires 1.0 <= interval && interval.Floor + 1 < SECONDS_PER_DAY
    requires var gap := (interval.Floor + 1) * MICROS_PER_SECOND - 1 - PartialDay(now, last);
      climb * MICROS_PER_SECOND <= gap <= climb * StarvingTick(interval)
    ensures |clock| == n && (n > 0 ==> clock[0] == now)
    ensures Ticks(clock, StarvingTick(interval)) && NeverDue(clock, last, interval)
    decreases n
  {
    clock := [];
    if n > 0 {
      DueMeans(now, last, interval);
      var next, tick := NextClimb(now, last, interval, climb);
      var rest := StarvingReadings(now + tick, last, interval, next, n - 1);
      clock := [now] + rest;
      forall i | 0 < i < n ensures MICROS_PER_SECOND <= clock[i] - clock[i - 1] <= StarvingTick(interval) {
        assert clock[i] == rest[i - 1] && (i > 1 ==> clock[i - 1] == rest[i - 2]);
      }
    }
  }

  lemma NextClimb(now: int, last: int, interval: real, climb: nat) returns (next: nat, tick: int)
    requires 1.0 <= interval && interval.Floor + 1 < SECONDS_PER_DAY
    requires var gap := (interval.Floor + 1) * MICROS_PER_SECOND - 1 - PartialDay(now, last);
      climb * MICROS_PER_SECOND <= gap <= climb * StarvingTick(interval)
    ensures MICROS_PER_SECOND <= tick <= StarvingTick(interval)
    ensures var gap := (interval.Floor + 1) * MICROS_PER_SECOND - 1 - PartialDay(now + tick, last);
      next * MICROS_PER_SECOND <= gap <= next * StarvingTick(interval)
  {
    var most := StarvingTick(interval);
    if climb == 0 {
      RoundFits(interval);
      next, tick := interval.Floor, most;
    } else {
      var gap := (interval.Floor + 1) * MICROS_PER_SECOND - 1 - PartialDay(now, last);
      ClimbFits(climb, gap, most);
      next, tick := climb - 1, ClimbTick(climb, gap, most);
    }
    NextPart(now, last, tick);
  }

  lemma NextPart(now: int, last: int, tick: int)
    requires 0 <= tick <= DAY
    ensures var part := PartialDay(now, last) + tick;
      PartialDay(now + tick, last) == if part < DAY then part else part - DAY
  {
    var d := now - last;
    assert d + tick == d / DAY * DAY + (PartialDay(now, last) + tick);
  }

  lemma {:induction false} WholeDays(now: int, last: int, interval: real, n: nat) returns (clock: seq<int>)
    requires 0.0 <= interval && PartialDay(now, last) == 0
    ensures |clock| == n && (n > 0 ==> clock[0] == now) && Ticks(clock, DAY) && NeverDue(clock, last, interval)
    decreases n
  {
    clock := [];
    if n > 0 {
      DueMeans(now, last, interval);
      NextPart(now, last, DAY);
      var rest := WholeDays(now + DAY, last, interval, n - 1);
      clock := [now] + rest;
      forall i | 0 < i < n ensures MICROS_PER_SECOND <= clock[i] - clock[i - 1] <= DAY {
        assert clock[i] == rest[i - 1] && (i > 1 ==> clock[i - 1] == rest[i - 2]);
      }
    }
  }

  /** With ticks of up to `StarvingTick` there are, for any number of passes, readings from the last upload
      on for which no pass is due. */
  lemma StarvationPossible(last: int, interval: real, n: nat) returns (clock: seq<int>)
    requires 0.0 <= interval && interval.Floor + 1 < SECONDS_PER_DAY
    ensures |clock| == n && (n > 0 ==> clock[0] == last)
    ensures Ticks(clock, StarvingTick(interval)) && NeverDue(clock, last, interval)
  {
    if interval.Floor == 0 {
      clock := WholeDays(last, last, interval, n);
    } else {
      RoundFits(interval);
      clock := StarvingReadings(last, last, interval, interval.Floor, n);
    }
  }

  /** An interval below one second: without a tick of a whole day, each missed pass comes a microsecond
      closer to the start of the day. */
  lemma {:induction false} ShortIntervalSinks(clock: seq<int>, last: int, interval: real)
    requires interval.Floor == 0 && clock != [] && Ticks(clock, DAY - 1) && NeverDue(clock, last, interval)
    ensures |clock| - 1 <= PartialDay(clock[0], last) < MICROS_PER_SECOND
    decreases |clock|
  {
    DueMeans(clock[0], last, interval);
    if |clock| > 1 {
      NextPart(clock[0], last, clock[1] - clock[0]);
      var rest := clock[1..];
      assert forall i :: 0 <= i < |rest| ==> rest[i] == clock[i + 1];
      ShortIntervalSinks(rest, last, interval);
    }
  }

  /** An interval of 86398 seconds with ticks of at most one second and 11 microseconds: from the first
      second of a day on, the due second is not skipped. */
  lemma {:induction false} LongIntervalClimbs(clock: seq<int>, last: int, interval: real, k: nat)
    requires interval.Floor == SECONDS_PER_DAY - 2 && Ticks(clock, MICROS_PER_SECOND + 11)
    requires clock != [] && k <= SECONDS_PER_DAY - 1 && |clock| + k >= SECONDS_PER_DAY
    requires k * MICROS_PER_SECOND <= PartialDay(clock[0], last) <= 10 + k * (MICROS_PER_SECOND + 11)
    ensures !NeverDue(clock, last, interval)
    decreases |clock|
  {
    DueMeans(clock[0], last, interval);
    if !Due(clock[0], last, interval) {
      NextPart(clock[0], last, clock[1] - clock[0]);
      var rest := clock[1..];
      assert forall i :: 0 <= i < |rest| ==> rest[i] == clock[i + 1];
      LongIntervalClimbs(rest, last, interval, k + 1);
      var i :| 0 <= i < |rest| && Due(rest[i], last, interval);
      assert Due(clock[i + 1], last, interval);
    }
  }

  /** The same from anywhere in the day. */
  lemma {:induction false} LongIntervalIsDue(clock: seq<int>, last: int, interval: real, k: nat)
    requires interval.Floor == SECONDS_PER_DAY - 2 && Ticks(clock, MICROS_PER_SECOND + 11)
    requires k <= SECONDS_PER_DAY - 1 && |clock| + k >= 2 * SECONDS_PER_DAY
    requires k * MICROS_PER_SECOND <= PartialDay(clock[0], last)
    ensures !NeverDue(clock, last, interval)
    decreases |clock|
  {
    DueMeans(clock[0], last, interval);
    if !Due(clock[0], last, interval) {
      var tick := clock[1] - clock[0];
      NextPart(clock[0], last, tick);
      var rest := clock[1..];
      assert forall i :: 0 <= i < |rest| ==> rest[i] == clock[i + 1];
      if PartialDay(clock[0], last) + tick < DAY {
        LongIntervalIsDue(rest, last, interval, k + 1);
      } else {
        LongIntervalClimbs(rest, last, interval, 0);
      }
      var i :| 0 <= i < |rest| && Due(rest[i], last, interval);
      assert Due(clock[i + 1], last, interval);
    }
  }

  /** A number of passes among which one is due, while no tick reaches `StarvingTick`. */
  function Patience(interval: real): nat
    requires 0.0 <= interval
  {
    if interval.Floor == 0 then MICROS_PER_SECOND + 1
    else if interval.Floor == SECONDS_PER_DAY - 2 then 2 * SECONDS_PER_DAY
    else interval.Floor + 2
  }

  lemma DueWithinPatience(clock: seq<int>, last: int, interval: real, most: int)
    requires 0.0 <= interval && interval.Floor + 1 < SECONDS_PER_DAY && most < StarvingTick(interval)
    requires |clock| == Patience(interval) && Ticks(clock, most)
    ensures !NeverDue(clock, last, interval)
  {
    if interval.Floor == 0 {
      if NeverDue(clock, last, interval) {
        ShortIntervalSinks(clock, last, interval);
        assert false;
      }
    } else if interval.Floor == SECONDS_PER_DAY - 2 {
      LongIntervalIsDue(clock, last, interval, 0);
    } else {
      DueInTime(clock, last, interval, 0);
    }
  }

  ghost predicate CanStarve(n: nat, most: int, last: int, interval: real) {
    exists clock: seq<int> :: |clock| == n && Ticks(clock, most) && NeverDue(clock, last, interval)
  }

  /** Messages can wait for any number of passes if and only if ticks of `StarvingTick` can occur. */
  lemma StarvationIsExact(interval: real, most: int, last: int)
    requires 0.0 <= interval && interval.Floor + 1 < SECONDS_PER_DAY
    ensures (forall n: nat :: CanStarve(n, most, last, interval)) <==> most >= StarvingTick(interval)
  {
    if most >= StarvingTick(interval) {
      forall n: nat ensures CanStarve(n, most, last, interval) {
        var clock := StarvationPossible(last, interval, n);
        assert Ticks(clock, most);
      }
    } else {
      forall clock: seq<int> | |clock| == Patience(interval) && Ticks(clock, most)
        ensures !NeverDue(clock, last, interval)
      {
        DueWithinPatience(clock, last, interval, most);
      }
      assert !CanStarve(Patience(interval), most, last, interval);
    }
  }

  lemma {:induction false} NeverDueNothingUploaded(
      ch: Channel, clock: seq<int>, arrivals: seq<seq<Line>>, interval: real)
    requires |arrivals| == |clock|
    requires NeverDue(clock, ch.lastUpload, interval)
    ensures Passes(ch, clock, arrivals, interval).chunks == ch.chunks
    decreases |clock|
  {
    if clock == [] {
    } else {
      NeverDueNothingUploaded(ch.(queue := ch.queue + arrivals[0]), clock[1..], arrivals[1..], interval);
    }
  }

  /** So with such ticks there are readings, for any number of passes and from the last upload on, for which
      nothing is uploaded whatever is put into the queue. */
  lemma NothingUploadedWhileStarving(ch: Channel, interval: real, arrivals: seq<seq<Line>>) returns (clock: seq<int>)
    requires 0.0 <= interval && interval.Floor + 1 < SECONDS_PER_DAY
    ensures |clock| == |arrivals| && (clock != [] ==> clock[0] == ch.lastUpload)
    ensures Ticks(clock, StarvingTick(interval))
    ensures Passes(ch, clock, arrivals, interval).chunks == ch.chunks
  {
    clock := StarvationPossible(ch.lastUpload, interval, |arrivals|);
    NeverDueNothingUploaded(ch, clock, arrivals, interval);
  }

  /** An interval of 86399 seconds or more never lets anything out before the session is closed. */
  lemma {:induction false} LongIntervalNeverUploads(
      ch: Channel, clock: seq<int>, arrivals: seq<seq<Line>>, interval: real)
    requires |arrivals| == |clock| && interval >= (SECONDS_PER_DAY - 1) as real
    ensures Passes(ch, clock, arrivals, interval).chunks == ch.chunks
  {
    NeverDueNothingUploaded(ch, clock, arrivals, interval);
  }

  // ----- an upload starts the interval again -----

  /** After a pass of an open session that uploads a chunk at `now`, no pass with a reading before the
      interval is over uploads anything, whatever is put into the queue. */
  lemma {:induction false} UploadRestartsInterval(
      ch: Channel, now: int, clock: seq<int>, arrivals: seq<seq<Line>>, interval: real)
    requires 0.0 <= interval && |arrivals| == |clock|
    requires Iteration(ch, now, false, interval).0.chunks != ch.chunks
    requires forall i :: 0 <= i < |clock| ==> 0 <= clock[i] - now < (interval.Floor + 1) * MICROS_PER_SECOND
    ensures var after := Iteration(ch, now, false, interval).0;
      Passes(after, clock, arrivals, interval).chunks == after.chunks
  {
    var after := Iteration(ch, now, false, interval).0;
    forall i | 0 <= i < |clock| ensures !Due(clock[i], now, interval) {
      TooEarly(clock[i], now, interval);
    }
    NeverDueNothingUploaded(after, clock, arrivals, interval);
  }

  lemma TooEarly(now: int, last: int, interval: real)
    requires 0.0 <= interval && 0 <= now - last < (interval.Floor + 1) * MICROS_PER_SECOND
    ensures !Due(now, last, interval)
  {
    DueMeans(now, last, interval);
    assert (now - last) % DAY <= now - last;
  }

  /** Passes that find nothing to upload do not start the interval: the first message after any number of
      idle passes is uploaded in its own pass if that one comes after the interval, counted from the upload
      before the idle passes. */
  lemma {:induction false} IdlePassesDoNotDelay(
      ch: Channel, now: int, batch: seq<Line>, idle: seq<int>, late: int, interval: real)
    requires Numbered(ch) && Iteration(ch, now, false, interval).0.chunks != ch.chunks && batch != []
    requires (interval.Floor + 1) * MICROS_PER_SECOND <= late - now < DAY
    ensures var after := Iteration(ch, now, false, interval).0;
      var nothing := seq(|idle|, i requires 0 <= i < |idle| => []);
      Delivered(Passes(Passes(after, idle, nothing, interval), [late], [batch], interval).chunks)
        == Delivered(after.chunks) + batch
  {
    hide Delivered, Numbered;
    var after := Iteration(ch, now, false, interval).0;
    IdlePassesChangeNothing(after, idle, interval);
    DueMeans(late, now, interval);
    IterationKeepsMessages(ch, now, false, interval);
    OneDuePass(after, batch, late, interval);
  }

  lemma {:induction false} OneDuePass(ch: Channel, batch: seq<Line>, now: int, interval: real)
    requires Numbered(ch) && ch.queue == [] && batch != [] && Due(now, ch.lastUpload, interval)
    ensures Delivered(Passes(ch, [now], [batch], interval).chunks) == Delivered(ch.chunks) + batch
  {
    hide Due, UploadBatch, Delivered, Numbered;
    assert [now][1..] == [] && ch.queue + batch == batch && ch.(queue := []) == ch;
    BatchDelivered(ch, batch, now);
    var (next, _) := Iteration(ch.(queue := ch.queue + [batch][0]), now, false, interval);
    assert Passes(ch, [now], [batch], interval) == Passes(next, [], [batch][1..], interval);
  }

  lemma {:induction false} IdlePassesChangeNothing(ch: Channel, idle: seq<int>, interval: real)
    requires ch.queue == []
    ensures Passes(ch, idle, seq(|idle|, i requires 0 <= i < |idle| => []), interval) == ch
    decreases |idle|
  {
    if idle != [] {
      var nothing: seq<seq<Line>> := seq(|idle|, i requires 0 <= i < |idle| => []);
      assert nothing[1..] == seq(|idle[1..]|, i requires 0 <= i < |idle[1..]| => []);
      assert ch.(queue := ch.queue + nothing[0]) == ch;
      assert Iteration(ch, idle[0], false, interval).0 == ch;
      IdlePassesChangeNothing(ch, idle[1..], interval);
    }
  }
}
