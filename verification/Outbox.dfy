/**
 The delivery protocol of one outbox row (apps/actions/delivery.py,
 apps/actions/webhook_retry.py and the requeue view). Post-commit dispatch, retry runs,
 claims, dry runs and requeues interleave; each locked transaction is one event, and the
 result of a POST and the wall clock are free choices. Times are in whole seconds.
 */
module Outbox {
  import opened Prelude

  datatype Status = Pending | Failed | Delivered | Dead

  datatype Row = Row(
    status: Status,
    attemptCount: nat,
    nextAttemptAt: Option<int>,
    lockedUntil: Option<int>,
    deliveredAt: Option<int>)

  /** A stored delivery attempt. */
  datatype Attempt = Attempt(number: nat, success: bool)

  /** What a deliverer brings back: a rule that cannot be used, or the answer to its POST. */
  datatype Posted =
    | Terminal
    | Answer(success: bool, permanent: bool, httpStatus: Option<int>, retryAfter: Option<int>)

  const NEW_ROW := Row(Pending, 0, None, None, None)

  predicate Open(row: Row) { row.status == Pending || row.status == Failed }

  // ------------------------------------------------------------ retry delay

  const MAX_BACKOFF_SECONDS := 3600

  function Min(a: int, b: int): int { if a <= b then a else b }
  function Max(a: int, b: int): int { if a >= b then a else b }

  function Pow2(n: nat): nat { if n == 0 then 1 else 2 * Pow2(n - 1) }

  function BackoffSeconds(attemptNumber: int): int { Min(3600, 30 * Pow2(Max(0, attemptNumber - 1))) }

  function RetryDelay(httpStatus: Option<int>, retryAfter: Option<int>, base: int): int {
    var delay := if (httpStatus == Some(429) || httpStatus == Some(503)) && retryAfter.Some?
      then Max(base, retryAfter.value) else base;
    Min(MAX_BACKOFF_SECONDS, Max(1, delay))
  }

  lemma {:induction false} Pow2Grows(m: nat, n: nat)
    requires m <= n
    ensures 1 <= Pow2(m) <= Pow2(n)
    decreases n
  {
    if m < n { Pow2Grows(m, n - 1); } else if n > 0 { Pow2Grows(m - 1, n - 1); }
  }

  /** The backoff never falls from one attempt to the next, starts at 30 seconds and is an hour from the eighth on. */
  lemma BackoffGrows(k: int, n: int)
    requires k <= n
    ensures 30 <= BackoffSeconds(k) <= BackoffSeconds(n) <= 3600
    ensures n >= 8 ==> BackoffSeconds(n) == 3600
  {
    Pow2Grows(Max(0, k - 1), Max(0, n - 1));
    if n >= 8 {
      Pow2Grows(7, n - 1);
      assert Pow2(7) == 128;
    }
  }

  /**
   A failed row is never due again at once and never later than an hour; a Retry-After of up to
   an hour on 429 or 503 is honoured, whatever the backoff.
   */
  lemma DelayBounds(attemptNumber: int, httpStatus: Option<int>, retryAfter: Option<int>)
    ensures var d := RetryDelay(httpStatus, retryAfter, BackoffSeconds(attemptNumber));
            30 <= d <= MAX_BACKOFF_SECONDS && d >= BackoffSeconds(attemptNumber)
    ensures retryAfter.Some? && (httpStatus == Some(429) || httpStatus == Some(503)) ==>
              RetryDelay(httpStatus, retryAfter, BackoffSeconds(attemptNumber)) >= Min(MAX_BACKOFF_SECONDS,
                retryAfter.value)
  {
    BackoffGrows(attemptNumber, attemptNumber);
  }

  /** Seconds from an attempt to the next, by its number; an hour from the eighth on. */
  const SCHEDULE := [30, 60, 120, 240, 480, 960, 1920]

  function Scheduled(number: nat): int
    requires number > 0
  {
    if number <= |SCHEDULE| then SCHEDULE[number - 1] else 3600
  }

  lemma BackoffIsScheduled(number: nat)
    requires number > 0
    ensures BackoffSeconds(number) == Scheduled(number)
  {
    if number > |SCHEDULE| { BackoffGrows(number, number); } else { SmallPowers(); }
  }

  lemma SmallPowers()
    ensures Pow2(0) == 1 && Pow2(1) == 2 && Pow2(2) == 4 && Pow2(3) == 8 && Pow2(4) == 16 && Pow2(5) == 32
      && Pow2(6) == 64
  {
  }

  /** Seconds until a failed attempt is repeated: a Retry-After on 429 or 503 can ask for more, up to an hour. */
  function DueAfter(number: nat, httpStatus: Option<int>, retryAfter: Option<int>): int
    requires number > 0
  {
    var asked := if httpStatus == Some(429) || httpStatus == Some(503) then retryAfter else None;
    if asked.None? || asked.value <= Scheduled(number) then Scheduled(number)
    else if asked.value > 3600 then 3600
    else asked.value
  }

  lemma DelayIsDue(number: nat, httpStatus: Option<int>, retryAfter: Option<int>)
    requires number > 0
    ensures RetryDelay(httpStatus, retryAfter, BackoffSeconds(number)) == DueAfter(number, httpStatus, retryAfter)
  {
    BackoffIsScheduled(number);
  }

  // --------------------------------------------------- the row transactions

  predicate Succeeds(p: Posted) { p.Answer? && p.success }

  predicate Permanent(p: Posted) { p.Terminal? || p.permanent }

  /** The row after one recorded attempt. */
  function ApplyResult(row: Row, p: Posted, now: int, maxAttempts: int): Row {
    var number := row.attemptCount + 1;
    if Succeeds(p) then Row(Delivered, number, None, None, Some(now))
    else if Permanent(p) || number >= maxAttempts then Row(Dead, number, None, None, row.deliveredAt)
    else Row(Failed, number, Some(now + RetryDelay(p.httpStatus, p.retryAfter, BackoffSeconds(number))), None,
      row.deliveredAt)
  }

  /** Rows a retry run that started at `now` may claim. */
  predicate Eligible(row: Row, now: int) {
    Open(row) && (row.nextAttemptAt.Some? ==> row.nextAttemptAt.value <= now)
    && (row.lockedUntil.Some? ==> row.lockedUntil.value <= now)
  }

  class OutboxRow {
    var status: Status
    var attemptCount: nat
    var nextAttemptAt: Option<int>
    var lockedUntil: Option<int>
    var deliveredAt: Option<int>
    var attempts: seq<Attempt>

    ghost function Value(): Row
      reads this
    {
      Row(status, attemptCount, nextAttemptAt, lockedUntil, deliveredAt)
    }

    /** First transaction of a delivery: nothing to do on a closed row, else the attempt count to compare with later. */
    method Snapshot() returns (snapshot: Option<nat>)
      ensures snapshot == if Open(Value()) then Some(attemptCount) else None
    {
      if status == Delivered || status == Dead {
        return None;
      }
      snapshot := Some(attemptCount);
    }

    method ApplyDeliveryResult(p: Posted, now: int, maxAttempts: int)
      modifies this
      ensures Value() == ApplyResult(old(Value()), p, now, maxAttempts)
      ensures attempts == old(attempts) + [Attempt(old(attemptCount) + 1, Succeeds(p))]
      ensures status == Failed ==>
        nextAttemptAt == Some(now + DueAfter(old(attemptCount) + 1, p.httpStatus, p.retryAfter))
    {
      var attemptNumber := attemptCount + 1;
      var success, permanent := false, true;
      if p.Answer? { success, permanent := p.success, p.permanent; }
      attempts := attempts + [Attempt(attemptNumber, success)];
      attemptCount := attemptNumber;
      lockedUntil := None;
      if success {
        status := Delivered;
        deliveredAt := Some(now);
        nextAttemptAt := None;
      } else if permanent || attemptNumber >= maxAttempts {
        status := Dead;
        nextAttemptAt := None;
      } else {
        status := Failed;
        DelayIsDue(attemptNumber, p.httpStatus, p.retryAfter);
        var delay := RetryDelay(p.httpStatus, p.retryAfter, BackoffSeconds(attemptNumber));
        nextAttemptAt := Some(now + delay);
      }
    }

    /** Last transaction of a delivery: a result is stored only if no attempt was stored since the snapshot. */
    method Record(snapshot: nat, p: Posted, now: int, maxAttempts: int) returns (stored: bool)
      modifies this
      ensures stored <==> old(attemptCount) == snapshot
      ensures stored ==> Value() == ApplyResult(old(Value()), p, now, maxAttempts)
      ensures stored ==> attempts == old(attempts) + [Attempt(snapshot + 1, Succeeds(p))]
      ensures !stored ==> Value() == old(Value()) && attempts == old(attempts)
    {
      if attemptCount != snapshot {
        return false;
      }
      ApplyDeliveryResult(p, now, maxAttempts);
      stored := true;
    }

    /** Takes the lease when the row may be claimed, and touches nothing else. */
    method Claim(now: int, lease: int) returns (claimed: bool)
      modifies this`lockedUntil
      ensures claimed <==> Eligible(old(Value()), now)
      ensures lockedUntil == if claimed then Some(now + lease) else old(lockedUntil)
    {
      claimed := (status == Pending || status == Failed)
        && (nextAttemptAt.None? || nextAttemptAt.value <= now)
        && (lockedUntil.None? || lockedUntil.value <= now);
      if claimed { lockedUntil := Some(now + lease); }
    }

    /** Requeue opens the row again; the attempt count and the attempts stay. */
    method Requeue()
      modifies this`status, this`nextAttemptAt, this`lockedUntil
      ensures Value() == old(Value()).(status := Pending, nextAttemptAt := None, lockedUntil := None)
    {
      status := Pending;
      nextAttemptAt := None;
      lockedUntil := None;
    }
  }

  // ---------------------------------------------------------- interleavings

  /** Deliverers between their two transactions, by the attempt count each one saw. */
  datatype State = State(row: Row, attempts: seq<Attempt>, posting: map<nat, nat>, requeues: nat)

  const FRESH := State(NEW_ROW, [], map[], 0)

  datatype Event =
    | Begin(deliverer: nat)
    | Finish(deliverer: nat, posted: Posted, at: int)
    | Abandon(deliverer: nat)
    | Claim(now: int, lease: int)
    | Unlock  // a dry run gives its claim back
    | Requeue

  /** An event that is not enabled changes nothing. */
  function Next(s: State, e: Event, maxAttempts: int): State {
    match e
    case Begin(d) =>
      if d !in s.posting && Open(s.row) then s.(posting := s.posting[d := s.row.attemptCount]) else s
    case Finish(d, p, at) =>
      if d !in s.posting then s
      else if s.posting[d] != s.row.attemptCount then s.(posting := s.posting - {d})
      else s.(row := ApplyResult(s.row, p, at, maxAttempts),
              attempts := s.attempts + [Attempt(s.row.attemptCount + 1, Succeeds(p))],
              posting := s.posting - {d})
    case Abandon(d) => s.(posting := s.posting - {d})
    case Claim(now, lease) =>
      if Eligible(s.row, now) then s.(row := s.row.(lockedUntil := Some(now + lease))) else s
    case Unlock => s.(row := s.row.(lockedUntil := None))
    case Requeue =>
      s.(row := s.row.(status := Pending, nextAttemptAt := None, lockedUntil := None), requeues := s.requeues + 1)
  }

  function Trace(s: State, events: seq<Event>, maxAttempts: int): State
    decreases |events|
  {
    if events == [] then s else Trace(Next(s, events[0], maxAttempts), events[1..], maxAttempts)
  }

  function Successes(attempts: seq<Attempt>): nat {
    if attempts == [] then 0
    else Successes(attempts[..|attempts| - 1]) + if attempts[|attempts| - 1].success then 1 else 0
  }

  // -------------------------------------------------------------- invariant

  predicate Numbered(s: State) {
    |s.attempts| == s.row.attemptCount
    && forall i :: 0 <= i < |s.attempts| ==> s.attempts[i].number == i + 1
  }

  /** A deliverer that would still be believed finds the row open. */
  predicate SnapshotsSafe(s: State) {
    forall d :: d in s.posting ==>
      s.posting[d] <= s.row.attemptCount && (s.posting[d] == s.row.attemptCount ==> Open(s.row))
  }

  /** Each requeue pays for one more attempt and one more success. */
  predicate Budget(s: State, maxAttempts: int) {
    var spare := if Open(s.row) then 1 else 0;
    s.row.attemptCount + spare <= Max(1, maxAttempts) + s.requeues
    && Successes(s.attempts) + spare <= 1 + s.requeues
  }

  /** What each status says about the schedule and the last attempt. */
  predicate StatusMeans(s: State, maxAttempts: int) {
    match s.row.status
    case Pending => s.row.nextAttemptAt.None?
    case Failed => s.row.nextAttemptAt.Some? && 0 < |s.attempts| < maxAttempts && !s.attempts[|s.attempts| - 1].success
    case Delivered => s.row.nextAttemptAt.None? && 0 < |s.attempts| && s.attempts[|s.attempts| - 1].success
    case Dead => s.row.nextAttemptAt.None? && 0 < |s.attempts| && !s.attempts[|s.attempts| - 1].success
  }

  predicate Sound(s: State, maxAttempts: int) {
    Numbered(s) && SnapshotsSafe(s) && Budget(s, maxAttempts) && StatusMeans(s, maxAttempts)
    && (s.row.deliveredAt.Some? <==> Successes(s.attempts) > 0)
  }

  /** What a stored result does to the row, the delay aside. */
  predicate Settles(row: Row, row': Row, p: Posted, maxAttempts: int) {
    row'.attemptCount == row.attemptCount + 1
    && row'.status == (if Succeeds(p) then Delivered
                       else if Permanent(p) || row.attemptCount + 1 >= maxAttempts then Dead
                       else Failed)
    && (row'.nextAttemptAt.Some? <==> row'.status == Failed)
    && (row'.deliveredAt.Some? <==> Succeeds(p) || row.deliveredAt.Some?)
  }

  lemma ApplyResultSettles(row: Row, p: Posted, now: int, maxAttempts: int)
    ensures Settles(row, ApplyResult(row, p, now, maxAttempts), p, maxAttempts)
  {
  }

  lemma SuccessesSnoc(attempts: seq<Attempt>, a: Attempt)
    ensures Successes(attempts + [a]) == Successes(attempts) + if a.success then 1 else 0
  {
    assert (attempts + [a])[..|attempts + [a]| - 1] == attempts;
  }

  /** One more attempt, by a deliverer that found the row open. */
  lemma SettledIsSound(s: State, row': Row, d: nat, p: Posted, maxAttempts: int)
    requires Sound(s, maxAttempts) && d in s.posting && s.posting[d] == s.row.attemptCount
    requires Settles(s.row, row', p, maxAttempts)
    ensures Sound(State(row', s.attempts + [Attempt(s.row.attemptCount + 1, Succeeds(p))], s.posting - {d},
      s.requeues), maxAttempts)
  {
    SuccessesSnoc(s.attempts, Attempt(s.row.attemptCount + 1, Succeeds(p)));
    assert Open(s.row);
  }

  lemma StoreKeepsSound(s: State, d: nat, p: Posted, at: int, maxAttempts: int)
    requires Sound(s, maxAttempts) && d in s.posting && s.posting[d] == s.row.attemptCount
    ensures Sound(Next(s, Finish(d, p, at), maxAttempts), maxAttempts)
  {
    ApplyResultSettles(s.row, p, at, maxAttempts);
    SettledIsSound(s, ApplyResult(s.row, p, at, maxAttempts), d, p, maxAttempts);
  }

  lemma QuietKeepsSound(s: State, e: Event, maxAttempts: int)
    requires Sound(s, maxAttempts) && Next(s, e, maxAttempts).attempts == s.attempts
    requires e.Finish? ==> !(e.deliverer in s.posting && s.posting[e.deliverer] == s.row.attemptCount)
    ensures Sound(Next(s, e, maxAttempts), maxAttempts)
  {
  }

  lemma NextKeepsSound(s: State, e: Event, maxAttempts: int)
    requires Sound(s, maxAttempts)
    ensures Sound(Next(s, e, maxAttempts), maxAttempts)
  {
    if e.Finish? && e.deliverer in s.posting && s.posting[e.deliverer] == s.row.attemptCount {
      StoreKeepsSound(s, e.deliverer, e.posted, e.at, maxAttempts);
    } else {
      QuietKeepsSound(s, e, maxAttempts);
    }
  }

  lemma {:induction false} TraceKeepsSound(s: State, events: seq<Event>, maxAttempts: int)
    requires Sound(s, maxAttempts)
    ensures Sound(Trace(s, events, maxAttempts), maxAttempts)
    decreases |events|
  {
    if events != [] {
      NextKeepsSound(s, events[0], maxAttempts);
      TraceKeepsSound(Next(s, events[0], maxAttempts), events[1..], maxAttempts);
    }
  }

  // ------------------------------------------------------------ main results

  /** In every interleaving the stored attempts are numbered 1, 2, … without gap or repeat. */
  lemma AttemptsAreNumbered(events: seq<Event>, maxAttempts: int)
    ensures var s := Trace(FRESH, events, maxAttempts);
            |s.attempts| == s.row.attemptCount
            && forall i :: 0 <= i < |s.attempts| ==> s.attempts[i].number == i + 1
  {
    TraceKeepsSound(FRESH, events, maxAttempts);
  }

  /** A stale result never overwrites a delivered or dead row: a result that is stored finds the row open. */
  lemma StoredResultFindsOpenRow(events: seq<Event>, d: nat, p: Posted, at: int, maxAttempts: int)
    ensures var s := Trace(FRESH, events, maxAttempts);
            Next(s, Finish(d, p, at), maxAttempts).row != s.row ==> Open(s.row)
    ensures var s := Trace(FRESH, events, maxAttempts);
            d in s.posting ==> s.posting[d] <= s.row.attemptCount
  {
    TraceKeepsSound(FRESH, events, maxAttempts);
  }

  /** Attempts and successes are bounded by the configuration and the number of requeues. */
  lemma AttemptsAreBounded(events: seq<Event>, maxAttempts: int)
    ensures var s := Trace(FRESH, events, maxAttempts);
            |s.attempts| <= Max(1, maxAttempts) + s.requeues && Successes(s.attempts) <= 1 + s.requeues
    ensures var s := Trace(FRESH, events, maxAttempts);
            Open(s.row) ==> |s.attempts| < Max(1, maxAttempts) + s.requeues && Successes(s.attempts) <= s.requeues
    ensures var s := Trace(FRESH, events, maxAttempts);
            s.row.status == Failed ==> s.row.nextAttemptAt.Some? && s.row.attemptCount < maxAttempts
    ensures var s := Trace(FRESH, events, maxAttempts);
            (s.row.nextAttemptAt.Some? <==> s.row.status == Failed) &&
              (s.row.deliveredAt.Some? <==> Successes(s.attempts) > 0)
  {
    TraceKeepsSound(FRESH, events, maxAttempts);
  }

  /** After delivered or dead nothing is stored, and the status stays, until a requeue. */
  lemma {:induction false} ClosedUntilRequeue(s: State, events: seq<Event>, maxAttempts: int)
    requires Sound(s, maxAttempts) && !Open(s.row)
    requires forall i :: 0 <= i < |events| ==> !events[i].Requeue?
    ensures var z := Trace(s, events, maxAttempts);
            z.attempts == s.attempts && z.row.(lockedUntil := None) == s.row.(lockedUntil := None)
    decreases |events|
  {
    if events != [] {
      NextKeepsSound(s, events[0], maxAttempts);
      ClosedUntilRequeue(Next(s, events[0], maxAttempts), events[1..], maxAttempts);
    }
  }

  /** A stored attempt is never rewritten, whatever happens later. */
  lemma {:induction false} AttemptsOnlyGrow(s: State, events: seq<Event>, maxAttempts: int)
    ensures s.attempts <= Trace(s, events, maxAttempts).attempts
    decreases |events|
  {
    if events != [] { AttemptsOnlyGrow(Next(s, events[0], maxAttempts), events[1..], maxAttempts); }
  }

  /**
   Of the deliverers that took the same snapshot, the first to finish settles the attempt: from
   then on the others store nothing, whatever happens in between.
   */
  lemma {:induction false} OneResultPerSnapshot(s: State, events: seq<Event>, d: nat, p: Posted, at: int,
                                                maxAttempts: int)
    requires d in s.posting && s.posting[d] < s.row.attemptCount
    requires forall i :: 0 <= i < |events| ==> events[i] != Begin(d)
    ensures var z := Trace(s, events, maxAttempts);
            var y := Next(z, Finish(d, p, at), maxAttempts);
            y.row == z.row && y.attempts == z.attempts
    decreases |events|
  {
    if events != [] {
      var s' := Next(s, events[0], maxAttempts);
      if d in s'.posting {
        OneResultPerSnapshot(s', events[1..], d, p, at, maxAttempts);
      } else {
        GoneStaysGone(s', events[1..], d, maxAttempts);
      }
    }
  }

  lemma {:induction false} GoneStaysGone(s: State, events: seq<Event>, d: nat, maxAttempts: int)
    requires d !in s.posting
    requires forall i :: 0 <= i < |events| ==> events[i] != Begin(d)
    ensures d !in Trace(s, events, maxAttempts).posting
    decreases |events|
  {
    if events != [] { GoneStaysGone(Next(s, events[0], maxAttempts), events[1..], d, maxAttempts); }
  }

  /** Neither the end of this deliverer nor its being given up. */
  predicate LeavesPosting(e: Event, d: nat) { !(e.Finish? && e.deliverer == d) && !(e.Abandon? && e.deliverer == d) }

  lemma {:induction false} StaysPosting(s: State, events: seq<Event>, d: nat, maxAttempts: int)
    requires d in s.posting && forall i :: 0 <= i < |events| ==> LeavesPosting(events[i], d)
    ensures var z := Trace(s, events, maxAttempts); d in z.posting && z.posting[d] == s.posting[d]
    decreases |events|
  {
    if events != [] { StaysPosting(Next(s, events[0], maxAttempts), events[1..], d, maxAttempts); }
  }

  /**
   Over every trace, a deliverer's result is stored, as the next attempt, if and only if no attempt was
   stored since it began; otherwise it is dropped, a success too.
   */
  lemma StoredExactlyWhenFirst(s: State, events: seq<Event>, d: nat, p: Posted, at: int, maxAttempts: int)
    requires Sound(s, maxAttempts) && Open(s.row) && d !in s.posting
    requires forall i :: 0 <= i < |events| ==> LeavesPosting(events[i], d)
    ensures var z := Trace(Next(s, Begin(d), maxAttempts), events, maxAttempts);
            var y := Next(z, Finish(d, p, at), maxAttempts);
            if z.attempts == s.attempts then
              y.attempts == z.attempts + [Attempt(|z.attempts| + 1, Succeeds(p))]
              && y.row == ApplyResult(z.row, p, at, maxAttempts)
            else
              s.attempts < z.attempts && y.attempts == z.attempts && y.row == z.row
  {
    var b := Next(s, Begin(d), maxAttempts);
    NextKeepsSound(s, Begin(d), maxAttempts);
    TraceKeepsSound(b, events, maxAttempts);
    StaysPosting(b, events, d, maxAttempts);
    AttemptsOnlyGrow(b, events, maxAttempts);
  }

  /**
   The lease does not keep dispatch out, so delivery is at least once: of two overlapping
   deliverers the second may succeed and its success is dropped, leaving the row to be sent again.
   */
  lemma SuccessCanBeDropped(s: State, d: nat, e: nat, failure: Posted, success: Posted, at: int, maxAttempts: int)
    requires Open(s.row) && d != e && d !in s.posting && e !in s.posting
    requires !Succeeds(failure) && !Permanent(failure) && s.row.attemptCount + 1 < maxAttempts && Succeeds(success)
    ensures var z := Trace(s, [Begin(d), Begin(e), Finish(d, failure, at), Finish(e, success, at)], maxAttempts);
            z.row.status == Failed && z.attempts == s.attempts + [Attempt(s.row.attemptCount + 1, false)]
  {
    var events := [Begin(d), Begin(e), Finish(d, failure, at), Finish(e, success, at)];
    var s1 := Next(s, events[0], maxAttempts);
    var s2 := Next(s1, events[1], maxAttempts);
    var s3 := Next(s2, events[2], maxAttempts);
    var s4 := Next(s3, events[3], maxAttempts);
    assert events[1..][1..][1..][1..] == [];
    assert Trace(s3, events[1..][1..][1..], maxAttempts) == Trace(s4, [], maxAttempts);
    assert Trace(s1, events[1..], maxAttempts) == Trace(s2, events[1..][1..], maxAttempts);
  }

  // ------------------------------------------------------- what is stored, when

  /** The deliverer took its snapshot after the last attempt. */
  predicate UpToDate(s: State, d: nat) { d in s.posting && s.posting[d] == s.row.attemptCount }

  /**
   A failed row is due exactly when the schedule says, or later where a Retry-After on 429 or 503 asks
   for more, up to an hour; a run can claim it from then on and not before. Other answers' Retry-After
   changes nothing.
   */
  lemma FailedRowIsDueExactly(s: State, d: nat, httpStatus: Option<int>, retryAfter: Option<int>, at: int,
                              maxAttempts: int)
    requires Sound(s, maxAttempts) && UpToDate(s, d) && s.row.attemptCount + 1 < maxAttempts
    ensures var n := s.row.attemptCount + 1;
            var y := Next(s, Finish(d, Answer(false, false, httpStatus, retryAfter), at), maxAttempts).row;
            var wait := DueAfter(n, httpStatus, retryAfter);
            y == Row(Failed, n, Some(at + wait), None, s.row.deliveredAt)
            && forall now :: Eligible(y, now) <==> at + wait <= now
  {
    DelayIsDue(s.row.attemptCount + 1, httpStatus, retryAfter);
  }

  /** What every other stored result makes of the row: delivered on success, else dead. */
  lemma FinalResultCloses(s: State, d: nat, p: Posted, at: int, maxAttempts: int)
    requires Sound(s, maxAttempts) && UpToDate(s, d)
    requires p.Terminal? || p.success || p.permanent || s.row.attemptCount + 1 >= maxAttempts
    ensures var n := s.row.attemptCount + 1;
            var y := Next(s, Finish(d, p, at), maxAttempts).row;
            (y == if p.Answer? && p.success then Row(Delivered, n, None, None, Some(at))
                  else Row(Dead, n, None, None, s.row.deliveredAt))
            && forall now :: !Eligible(y, now)
  {
  }

  /** A lease of a claimed row runs out after its seconds, and a requeued row can be claimed at once. */
  lemma LeaseRunsOut(s: State, now: int, lease: nat, later: int, maxAttempts: int)
    requires Eligible(s.row, now) && now <= later
    ensures Eligible(Next(s, Claim(now, lease), maxAttempts).row, later) <==> now + lease <= later
    ensures Next(s, Claim(now, lease), maxAttempts).row.(lockedUntil := None) == s.row.(lockedUntil := None)
  {
  }

  lemma RequeueOpens(s: State, now: int, maxAttempts: int)
    ensures var z := Next(s, Requeue, maxAttempts);
            Eligible(z.row, now) && z.row.status == Pending && z.row.attemptCount == s.row.attemptCount
            && z.attempts == s.attempts && z.posting == s.posting && z.row.deliveredAt == s.row.deliveredAt
  {
  }

  // ------------------------------------------------------------------ claims

  /** A claim keeps the row from the run that made it exactly when the lease is positive. */
  lemma ClaimBars(s: State, now: int, lease: int, maxAttempts: int)
    requires Eligible(s.row, now)
    ensures Eligible(Next(s, Claim(now, lease), maxAttempts).row, now) <==> lease <= 0
  {
  }

  /** A dry run gives the claim back, so the same row can be claimed again by the same run. */
  lemma DryRunClaimsAgain(s: State, now: int, lease: int, maxAttempts: int)
    requires Eligible(s.row, now)
    ensures Eligible(Trace(s, [Claim(now, lease), Unlock], maxAttempts).row, now)
  {
    var s1 := Next(s, Claim(now, lease), maxAttempts);
    assert [Claim(now, lease), Unlock][1..] == [Unlock];
    assert Trace(s1, [Unlock], maxAttempts) == Trace(Next(s1, Unlock, maxAttempts), [], maxAttempts);
  }
}
