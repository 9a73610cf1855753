/**
 Recorded runs of one scheduled job (record_run, _mark_interrupted and _finish in
 apps/actions/scheduled_jobs.py). Any number of workers interleave, one database statement at
 a time, and any of them may die between two statements.
 */
module ScheduledRuns {
  import opened Prelude

  datatype Status = Running | Succeeded | Failed

  /** A run row, with how often it was closed as each status. */
  datatype Row = Row(startedAt: int, status: Status, succeededTimes: nat, failedTimes: nat, hasMarked: bool)

  /** Where the worker of a run stands, and what it still has to add to the counters. */
  datatype Phase =
    | Starting             // row created
    | Marking(marked: nat) // stale rows closed, not counted yet
    | Body
    | Closing(status: Status)
    | Gone

  datatype Tally = Tally(succeeded: nat, failed: nat)

  function Of(t: Tally, status: Status): nat {
    if status == Succeeded then t.succeeded else if status == Failed then t.failed else 0
  }

  /** Counter totals: `counted` were added, `lost` belong to workers that died before adding them. */
  datatype State = State(now: int, rows: map<nat, Row>, workers: map<nat, Phase>, counted: Tally, lost: Tally)

  const IDLE := State(0, map[], map[], Tally(0, 0), Tally(0, 0))

  datatype Event =
    | Start(run: nat)
    | Mark(run: nat)
    | CountMarked(run: nat)
    | Finish(run: nat, ok: bool)
    | CountOwn(run: nat)
    | Die(run: nat)
    | Wait(seconds: nat)

  // ------------------------------------------------------ row statements

  /** Rows that the start of `current` finds to have outlived the limit. */
  function Stale(rows: map<nat, Row>, current: nat, limit: int): set<nat>
    requires current in rows
  {
    set r | r in rows && rows[r].status == Running && rows[r].startedAt < rows[current].startedAt - limit &&
      r != current
  }

  function Close(row: Row, status: Status): Row {
    if status == Succeeded then row.(status := status, succeededTimes := row.succeededTimes + 1)
    else row.(status := status, failedTimes := row.failedTimes + 1)
  }

  function CloseAll(rows: map<nat, Row>, stale: set<nat>): map<nat, Row> {
    map r | r in rows :: if r in stale then Close(rows[r], Failed) else rows[r]
  }

  function AfterMark(rows: map<nat, Row>, current: nat, limit: int): map<nat, Row>
    requires current in rows
  {
    var closed := CloseAll(rows, Stale(rows, current, limit));
    closed[current := closed[current].(hasMarked := true)]
  }

  function Outcome(ok: bool): Status { if ok then Succeeded else Failed }

  /** The run table of a job; each method is one statement of record_run. */
  class RunTable {
    var rows: map<nat, Row>

    method Create(run: nat, now: int)
      requires run !in rows
      modifies this
      ensures rows == old(rows)[run := Row(now, Running, 0, 0, false)]
    {
      rows := rows[run := Row(now, Running, 0, 0, false)];
    }

    method MarkInterrupted(current: nat, limit: int) returns (count: nat)
      requires current in rows
      modifies this
      ensures rows == AfterMark(old(rows), current, limit)
      ensures count == |Stale(old(rows), current, limit)|
    {
      ghost var expected := Stale(rows, current, limit);
      var cutoff := rows[current].startedAt - limit;
      var stale := set r | r in rows && rows[r].status == Running && rows[r].startedAt < cutoff && r != current;
      assert stale == expected;
      count := |stale|;
      rows := map r | r in rows :: if r in stale then Close(rows[r], Failed) else rows[r];
      rows := rows[current := rows[current].(hasMarked := true)];
    }

    /** The final save of a run writes its status whatever the row holds by then. */
    method Finish(run: nat, ok: bool)
      requires run in rows
      modifies this
      ensures rows == old(rows)[run := Close(old(rows)[run], Outcome(ok))]
    {
      rows := rows[run := Close(rows[run], if ok then Succeeded else Failed)];
    }
  }

  // ---------------------------------------------------------- interleavings

  /** What a worker would leave uncounted if it died now. */
  function Pending(p: Phase, status: Status): nat {
    match p
    case Marking(n) => if status == Failed then n else 0
    case Closing(st) => if st == status then 1 else 0
    case _ => 0
  }

  function Add(t: Tally, p: Phase): Tally {
    Tally(t.succeeded + Pending(p, Succeeded), t.failed + Pending(p, Failed))
  }

  predicate Staffed(s: State) { s.workers.Keys == s.rows.Keys }

  /** An event that is not enabled changes nothing. */
  function Next(s: State, e: Event, limit: int): State
    requires Staffed(s)
    ensures Staffed(Next(s, e, limit))
  {
    match e
    case Start(r) =>
      if r in s.rows then s
      else s.(rows := s.rows[r := Row(s.now, Running, 0, 0, false)], workers := s.workers[r := Starting])
    case Mark(r) =>
      if r in s.rows && s.workers[r] == Starting
      then s.(rows := AfterMark(s.rows, r, limit), workers := s.workers[r := Marking(|Stale(s.rows, r, limit)|)])
      else s
    case CountMarked(r) =>
      if r in s.rows && s.workers[r].Marking?
      then s.(counted := Add(s.counted, s.workers[r]), workers := s.workers[r := Body])
      else s
    case Finish(r, ok) =>
      if r in s.rows && s.workers[r] == Body
      then s.(rows := s.rows[r := Close(s.rows[r], Outcome(ok))], workers := s.workers[r := Closing(Outcome(ok))])
      else s
    case CountOwn(r) =>
      if r in s.rows && s.workers[r].Closing?
      then s.(counted := Add(s.counted, s.workers[r]), workers := s.workers[r := Gone])
      else s
    case Die(r) =>
      if r in s.rows then s.(lost := Add(s.lost, s.workers[r]), workers := s.workers[r := Gone]) else s
    case Wait(d) => s.(now := s.now + d)
  }

  function Trace(s: State, events: seq<Event>, limit: int): State
    requires Staffed(s)
    ensures Staffed(Trace(s, events, limit))
    decreases |events|
  {
    if events == [] then s else Trace(Next(s, events[0], limit), events[1..], limit)
  }

  // ----------------------------------------------------------------- ledger

  function Times(row: Row, status: Status): nat {
    if status == Succeeded then row.succeededTimes else if status == Failed then row.failedTimes else 0
  }

  function ClosedTimes(row: Row): nat { row.succeededTimes + row.failedTimes }

  function Closings(rows: map<nat, Row>, status: Status): map<nat, int> { map r | r in rows :: Times(rows[r], status) }

  function Pendings(workers: map<nat, Phase>, status: Status): map<nat, int> {
    map r | r in workers :: Pending(workers[r], status)
  }

  /** Every closing of a row is counted once, still to be counted, or lost with its worker. */
  ghost predicate Balanced(s: State, status: Status)
    requires Staffed(s) && status != Running
  {
    Of(s.counted, status) + Of(s.lost, status) + Sum(Pendings(s.workers, status)) == Sum(Closings(s.rows, status))
  }

  lemma RowUpdate(rows: map<nat, Row>, r: nat, row: Row, status: Status)
    ensures Sum(Closings(rows[r := row], status))
         == Sum(Closings(rows, status)) + Times(row, status) - if r in rows then Times(rows[r], status) else 0
  {
    assert Closings(rows[r := row], status) == Closings(rows, status)[r := Times(row, status)];
    if r in rows {
      SumUpdate(Closings(rows, status), r, Times(row, status));
    } else {
      SumInsert(Closings(rows, status), r, Times(row, status));
    }
  }

  lemma WorkerUpdate(workers: map<nat, Phase>, r: nat, p: Phase, status: Status)
    ensures Sum(Pendings(workers[r := p], status))
         == Sum(Pendings(workers, status)) + Pending(p, status) - if r in workers then
           Pending(workers[r], status) else 0
  {
    assert Pendings(workers[r := p], status) == Pendings(workers, status)[r := Pending(p, status)];
    if r in workers {
      SumUpdate(Pendings(workers, status), r, Pending(p, status));
    } else {
      SumInsert(Pendings(workers, status), r, Pending(p, status));
    }
  }

  lemma {:induction false} CloseAllAdds(rows: map<nat, Row>, stale: set<nat>, status: Status)
    requires stale <= rows.Keys
    ensures Sum(Closings(CloseAll(rows, stale), status))
         == Sum(Closings(rows, status)) + if status == Failed then |stale| else 0
    decreases |stale|
  {
    if stale == {} {
      assert CloseAll(rows, stale) == rows;
    } else {
      var r :| r in stale;
      var rest := CloseAll(rows, stale - {r});
      CloseAllAdds(rows, stale - {r}, status);
      RowUpdate(rest, r, Close(rest[r], Failed), status);
      assert CloseAll(rows, stale) == rest[r := Close(rest[r], Failed)];
    }
  }

  lemma MarkKeepsBalanced(s: State, r: nat, limit: int, status: Status)
    requires Staffed(s) && status != Running && Balanced(s, status)
    requires r in s.rows && s.workers[r] == Starting
    ensures Balanced(Next(s, Mark(r), limit), status)
  {
    var stale := Stale(s.rows, r, limit);
    var closed := CloseAll(s.rows, stale);
    CloseAllAdds(s.rows, stale, status);
    RowUpdate(closed, r, closed[r].(hasMarked := true), status);
    WorkerUpdate(s.workers, r, Marking(|stale|), status);
  }

  lemma StartKeepsBalanced(s: State, r: nat, limit: int, status: Status)
    requires Staffed(s) && status != Running && Balanced(s, status) && r !in s.rows
    ensures Balanced(Next(s, Start(r), limit), status)
  {
    RowUpdate(s.rows, r, Row(s.now, Running, 0, 0, false), status);
    WorkerUpdate(s.workers, r, Starting, status);
  }

  lemma FinishKeepsBalanced(s: State, r: nat, ok: bool, limit: int, status: Status)
    requires Staffed(s) && status != Running && Balanced(s, status)
    requires r in s.rows && s.workers[r] == Body
    ensures Balanced(Next(s, Finish(r, ok), limit), status)
  {
    var row, row', closing := s.rows[r], Close(s.rows[r], Outcome(ok)), Closing(Outcome(ok));
    RowUpdate(s.rows, r, row', status);
    WorkerUpdate(s.workers, r, closing, status);
    CloseIsPending(row, Outcome(ok), status);
  }

  /** A closing adds to a row exactly what its worker then has to count. */
  lemma CloseIsPending(row: Row, st: Status, status: Status)
    requires st != Running && status != Running
    ensures Times(Close(row, st), status) == Times(row, status) + Pending(Closing(st), status)
  {
  }

  lemma CountKeepsBalanced(s: State, e: Event, limit: int, status: Status)
    requires Staffed(s) && status != Running && Balanced(s, status)
    requires (e.CountMarked? || e.CountOwn? || e.Die?) && e.run in s.rows
    ensures Balanced(Next(s, e, limit), status)
  {
    WorkerUpdate(s.workers, e.run, if e.CountMarked? then Body else Gone, status);
  }

  lemma NextKeepsBalanced(s: State, e: Event, limit: int, status: Status)
    requires Staffed(s) && status != Running && Balanced(s, status)
    ensures Balanced(Next(s, e, limit), status)
  {
    if Next(s, e, limit) != s && !e.Wait? {
      if e.Start? {
        StartKeepsBalanced(s, e.run, limit, status);
      } else if e.Mark? {
        MarkKeepsBalanced(s, e.run, limit, status);
      } else if e.Finish? {
        FinishKeepsBalanced(s, e.run, e.ok, limit, status);
      } else {
        CountKeepsBalanced(s, e, limit, status);
      }
    }
  }

  lemma {:induction false} TraceKeepsBalanced(s: State, events: seq<Event>, limit: int, status: Status)
    requires Staffed(s) && status != Running && Balanced(s, status)
    ensures Balanced(Trace(s, events, limit), status)
    decreases |events|
  {
    if events != [] {
      NextKeepsBalanced(s, events[0], limit, status);
      TraceKeepsBalanced(Next(s, events[0], limit), events[1..], limit, status);
    }
  }

  /** In every interleaving, late and dead workers included, no closing is counted twice or made up. */
  lemma CountersMatchClosings(events: seq<Event>, limit: int, status: Status)
    requires status != Running
    ensures var s := Trace(IDLE, events, limit);
            Of(s.counted, status) + Of(s.lost, status) + Sum(Pendings(s.workers, status)) ==
              Sum(Closings(s.rows, status))
  {
    assert Closings(map[], status) == map[] && Pendings(map[], status) == map[];
    TraceKeepsBalanced(IDLE, events, limit, status);
  }

  lemma {:induction false} NothingIsLost(s: State, events: seq<Event>, limit: int)
    requires Staffed(s) && s.lost == Tally(0, 0) && forall i :: 0 <= i < |events| ==> !events[i].Die?
    ensures Trace(s, events, limit).lost == Tally(0, 0)
    decreases |events|
  {
    if events != [] { NothingIsLost(Next(s, events[0], limit), events[1..], limit); }
  }

  /** Where no worker dies, the counters and what is still to be added are the closings. */
  lemma CountersMatchWithoutDeaths(events: seq<Event>, limit: int)
    requires forall i :: 0 <= i < |events| ==> !events[i].Die?
    ensures var s := Trace(IDLE, events, limit);
            s.counted.succeeded + Sum(Pendings(s.workers, Succeeded)) == Sum(Closings(s.rows, Succeeded))
            && s.counted.failed + Sum(Pendings(s.workers, Failed)) == Sum(Closings(s.rows, Failed))
  {
    NothingIsLost(IDLE, events, limit);
    CountersMatchClosings(events, limit, Succeeded);
    CountersMatchClosings(events, limit, Failed);
  }

  /** A worker that has nothing left to add has added it: one for its own row, and one for each row it closed. */
  lemma CountingAdds(s: State, r: nat, limit: int)
    requires Staffed(s) && r in s.rows
    ensures s.workers[r] == Closing(Succeeded) ==>
      Next(s, CountOwn(r), limit).counted == Tally(s.counted.succeeded + 1, s.counted.failed)
    ensures s.workers[r] == Closing(Failed) ==>
      Next(s, CountOwn(r), limit).counted == Tally(s.counted.succeeded, s.counted.failed + 1)
    ensures s.workers[r].Marking? ==>
      Next(s, CountMarked(r), limit).counted == Tally(s.counted.succeeded, s.counted.failed + s.workers[r].marked)
  {
  }

  // ------------------------------------------------------- interrupted runs

  /** Between creating its row and its final save. */
  predicate Live(s: State, r: nat) {
    r in s.rows && r in s.workers && Working(s.workers[r])
  }

  /** No live run has lasted longer than the limit. */
  predicate Timely(s: State, limit: int) {
    forall r :: r in s.rows && Live(s, r) ==> s.now <= s.rows[r].startedAt + limit
  }

  predicate AlwaysTimely(s: State, events: seq<Event>, limit: int)
    requires Staffed(s)
    decreases |events|
  {
    Timely(s, limit) && (events != [] ==> AlwaysTimely(Next(s, events[0], limit), events[1..], limit))
  }

  /** The status of a row is running exactly before its first closing, and always one it was closed as. */
  predicate Labelled(row: Row) {
    (row.status == Running <==> ClosedTimes(row) == 0)
    && (row.status == Succeeded ==> row.succeededTimes > 0) && (row.status == Failed ==> row.failedTimes > 0)
  }

  /** Holds whatever the workers do. */
  predicate Sound(s: State, limit: int) {
    Staffed(s)
    && (forall r :: r in s.rows ==> s.rows[r].startedAt <= s.now)
    && (forall r :: r in s.rows ==> Labelled(s.rows[r]))
    && MarkedIsClosed(s.rows, limit)
  }

  /** A run that has marked leaves no row running that its start had outlived. */
  predicate MarkedIsClosed(rows: map<nat, Row>, limit: int) {
    forall c, r :: c in rows && r in rows && rows[c].hasMarked && rows[r].startedAt < rows[c].startedAt - limit ==>
      rows[r].status != Running
  }

  /** Holds while no run outlives the limit. */
  predicate Orderly(s: State) {
    forall r :: r in s.rows ==>
      (Live(s, r) ==> s.rows[r].status == Running) && ClosedTimes(s.rows[r]) <= 1
  }

  /** How one event changes a row: its start is fixed, a closed row stays closed, only a mark marks. */
  lemma RowEvolves(s: State, e: Event, r: nat, limit: int)
    requires Staffed(s) && r in Next(s, e, limit).rows
    ensures var row' := Next(s, e, limit).rows[r];
            if r in s.rows then Evolves(s.rows[r], row', e == Mark(r)) else row' == Row(s.now, Running, 0, 0, false)
    ensures r in s.rows ==> Worked(s.workers[r], Next(s, e, limit).workers[r])
  {
  }

  /** A worker that is working was working before. */
  predicate Worked(before: Phase, after: Phase) { Working(after) ==> Working(before) }

  predicate Working(p: Phase) { p.Starting? || p.Marking? || p.Body? }

  predicate Evolves(row: Row, row': Row, marks: bool) {
    row'.startedAt == row.startedAt && (row'.status == Running ==> row.status == Running)
    && (row'.hasMarked ==> row.hasMarked || marks)
    && (row'.status == Running ==> row'.succeededTimes == row.succeededTimes && row'.failedTimes == row.failedTimes)
    && (row.status != Running ==> row'.status != Running)
    && (row'.status != Running && row.status == Running ==> ClosedTimes(row') > 0)
    && row'.succeededTimes >= row.succeededTimes && row'.failedTimes >= row.failedTimes
  }

  /** A mark closes every row that its start has outlived. */
  lemma MarkCloses(s: State, c: nat, r: nat, limit: nat)
    requires Staffed(s) && c in s.rows && r in s.rows && s.rows[r].startedAt < s.rows[c].startedAt - limit
    requires s.workers[c] == Starting
    ensures Next(s, Mark(c), limit).rows[r].status != Running
  {
    if s.rows[r].status == Running { assert r in Stale(s.rows, c, limit); }
  }

  lemma NextKeepsMarked(s: State, e: Event, c: nat, r: nat, limit: nat)
    requires Sound(s, limit)
    requires var rows := Next(s, e, limit).rows;
             c in rows && r in rows && rows[c].hasMarked && rows[r].startedAt < rows[c].startedAt - limit
    ensures Next(s, e, limit).rows[r].status != Running
  {
    RowEvolves(s, e, c, limit);
    RowEvolves(s, e, r, limit);
    if c in s.rows && r in s.rows && !s.rows[c].hasMarked {
      assert e == Mark(c);
      MarkCloses(s, c, r, limit);
    }
  }

  lemma NextKeepsRow(s: State, e: Event, r: nat, limit: nat)
    requires Sound(s, limit) && r in Next(s, e, limit).rows
    ensures var s' := Next(s, e, limit); Labelled(s'.rows[r]) && s'.rows[r].startedAt <= s'.now
  {
    if r in s.rows { assert Labelled(s.rows[r]); }
  }

  lemma NextKeepsSound(s: State, e: Event, limit: nat)
    requires Sound(s, limit)
    ensures Sound(Next(s, e, limit), limit)
  {
    var s' := Next(s, e, limit);
    var rows := s'.rows;
    forall r | r in rows ensures Labelled(rows[r]) && rows[r].startedAt <= s'.now { NextKeepsRow(s, e, r, limit); }
    assert MarkedIsClosed(rows, limit) by {
      forall c, r | c in rows && r in rows && rows[c].hasMarked && rows[r].startedAt < rows[c].startedAt - limit
        ensures rows[r].status != Running
      {
        NextKeepsMarked(s, e, c, r, limit);
      }
    }
  }

  lemma NextKeepsOrderly(s: State, e: Event, limit: nat)
    requires Sound(s, limit) && Orderly(s) && Timely(s, limit)
    ensures Orderly(Next(s, e, limit))
  {
    var s' := Next(s, e, limit);
    forall r | r in s'.rows
      ensures (Live(s', r) ==> s'.rows[r].status == Running) && ClosedTimes(s'.rows[r]) <= 1
    {
      NextKeepsRowOrderly(s, e, r, limit);
    }
  }

  lemma NextKeepsRowOrderly(s: State, e: Event, r: nat, limit: nat)
    requires Sound(s, limit) && Orderly(s) && Timely(s, limit) && r in Next(s, e, limit).rows
    ensures var s' := Next(s, e, limit);
            (Live(s', r) ==> s'.rows[r].status == Running) && ClosedTimes(s'.rows[r]) <= 1
  {
    RowEvolves(s, e, r, limit);
    if r in s.rows {
      assert Labelled(s.rows[r]);
      if Live(s, r) && Live(Next(s, e, limit), r) && Next(s, e, limit).rows[r].status != Running {
        OnlyLateIsClosed(s, e, r, limit);
      }
      ClosedOnce(s, e, r, limit);
    }
  }

  lemma {:induction false} TraceKeepsSound(s: State, events: seq<Event>, limit: nat)
    requires Sound(s, limit)
    ensures Sound(Trace(s, events, limit), limit)
    decreases |events|
  {
    if events != [] {
      NextKeepsSound(s, events[0], limit);
      TraceKeepsSound(Next(s, events[0], limit), events[1..], limit);
    }
  }

  /** A closed row is closed again only by its own, still working, worker. */
  lemma ClosedOnce(s: State, e: Event, r: nat, limit: nat)
    requires Sound(s, limit) && Orderly(s) && r in s.rows
    ensures var row := Next(s, e, limit).rows[r]; ClosedTimes(row) <= 1
  {
    assert Labelled(s.rows[r]);
  }

  lemma {:induction false} TraceKeepsOrderly(s: State, events: seq<Event>, limit: nat)
    requires Sound(s, limit) && Orderly(s) && AlwaysTimely(s, events, limit)
    ensures Orderly(Trace(s, events, limit))
    decreases |events|
  {
    if events != [] {
      NextKeepsSound(s, events[0], limit);
      NextKeepsOrderly(s, events[0], limit);
      TraceKeepsOrderly(Next(s, events[0], limit), events[1..], limit);
    }
  }

  /** When no run outlives the limit, a live run is never marked interrupted and no row is closed twice. */
  lemma LiveRunsAreSpared(events: seq<Event>, limit: nat, r: nat)
    requires AlwaysTimely(IDLE, events, limit)
    requires r in Trace(IDLE, events, limit).rows
    ensures var s := Trace(IDLE, events, limit);
            (Live(s, r) ==> s.rows[r].status == Running) && ClosedTimes(s.rows[r]) <= 1
  {
    TraceKeepsOrderly(IDLE, events, limit);
  }

  function Ones(m: map<nat, int>): set<nat> { set k | k in m && m[k] == 1 }

  lemma OnesRemove(m: map<nat, int>, k: nat)
    requires k in m
    ensures |Ones(m)| == |Ones(m - {k})| + if m[k] == 1 then 1 else 0
  {
    if m[k] == 1 {
      assert Ones(m) == Ones(m - {k}) + {k};
    } else {
      assert Ones(m) == Ones(m - {k});
    }
  }

  lemma {:induction false} SumOfFlags(m: map<nat, int>)
    requires forall k :: k in m ==> m[k] == 0 || m[k] == 1
    ensures Sum(m) == |Ones(m)|
    decreases |m|
  {
    if m != map[] {
      var k :| k in m;
      SumRemove(m, k);
      SumOfFlags(m - {k});
      OnesRemove(m, k);
    }
  }

  /** The rows that hold a status for good: closed, and closed as `status`. */
  function ClosedAs(rows: map<nat, Row>, status: Status): set<nat> { set r | r in rows && rows[r].status == status }

  lemma ClosingsAreRows(s: State, status: Status)
    requires Orderly(s) && status != Running
    requires forall r :: r in s.rows ==> Labelled(s.rows[r])
    ensures Sum(Closings(s.rows, status)) == |ClosedAs(s.rows, status)|
  {
    var m := Closings(s.rows, status);
    forall r | r in m ensures m[r] == if s.rows[r].status == status then 1 else 0 {
      assert Labelled(s.rows[r]) && ClosedTimes(s.rows[r]) <= 1;
    }
    SumOfFlags(m);
    assert Ones(m) == ClosedAs(s.rows, status);
  }

  /** While no run outlives the limit, a counter with what is pending or lost is the number of rows in that status. */
  lemma CountersMatchRows(events: seq<Event>, limit: nat, status: Status)
    requires AlwaysTimely(IDLE, events, limit) && status != Running
    ensures var s := Trace(IDLE, events, limit);
            Of(s.counted, status) + Of(s.lost, status) + Sum(Pendings(s.workers, status)) == |ClosedAs(s.rows, status)|
  {
    CountersMatchClosings(events, limit, status);
    TraceKeepsSound(IDLE, events, limit);
    TraceKeepsOrderly(IDLE, events, limit);
    ClosingsAreRows(Trace(IDLE, events, limit), status);
  }

  /** A live run whose row is closed has outlived the limit. */
  predicate LateIfClosed(s: State, limit: int) {
    forall r :: r in s.rows && Live(s, r) && s.rows[r].status != Running ==> s.now > s.rows[r].startedAt + limit
  }

  lemma NextKeepsLate(s: State, e: Event, limit: nat)
    requires Sound(s, limit) && LateIfClosed(s, limit)
    ensures LateIfClosed(Next(s, e, limit), limit)
  {
    var s' := Next(s, e, limit);
    forall r | r in s'.rows && Live(s', r) && s'.rows[r].status != Running
      ensures s'.now > s'.rows[r].startedAt + limit
    {
      RowIsLateIfClosed(s, e, r, limit);
    }
  }

  lemma RowIsLateIfClosed(s: State, e: Event, r: nat, limit: nat)
    requires Sound(s, limit) && LateIfClosed(s, limit) && r in Next(s, e, limit).rows
    requires Live(Next(s, e, limit), r) && Next(s, e, limit).rows[r].status != Running
    ensures Next(s, e, limit).now > Next(s, e, limit).rows[r].startedAt + limit
  {
    RowEvolves(s, e, r, limit);
    if r in s.rows && s.rows[r].status == Running { OnlyLateIsClosed(s, e, r, limit); }
  }

  /** A working run's row is closed by others only, and only after its limit. */
  lemma OnlyLateIsClosed(s: State, e: Event, r: nat, limit: nat)
    requires Sound(s, limit) && r in s.rows && s.rows[r].status == Running
    requires Live(Next(s, e, limit), r) && Next(s, e, limit).rows[r].status != Running
    ensures s.now > s.rows[r].startedAt + limit && Next(s, e, limit).now == s.now
  {
    assert e.Mark?;
    assert r in Stale(s.rows, e.run, limit);
  }

  lemma {:induction false} TraceKeepsLate(s: State, events: seq<Event>, limit: nat)
    requires Sound(s, limit) && LateIfClosed(s, limit)
    ensures LateIfClosed(Trace(s, events, limit), limit)
    decreases |events|
  {
    if events != [] {
      NextKeepsSound(s, events[0], limit);
      NextKeepsLate(s, events[0], limit);
      TraceKeepsLate(Next(s, events[0], limit), events[1..], limit);
    }
  }

  /** In every interleaving a run that is still working is marked only after it has outlived the limit. */
  lemma OnlyLateRunsAreMarked(events: seq<Event>, limit: nat, r: nat)
    requires var s := Trace(IDLE, events, limit); Live(s, r) && s.now <= s.rows[r].startedAt + limit
    ensures var s := Trace(IDLE, events, limit);
            s.rows[r].status == Running && Stores(s, r, true, limit) && Stores(s, r, false, limit)
  {
    TraceKeepsSound(IDLE, events, limit);
    TraceKeepsLate(IDLE, events, limit);
    var s := Trace(IDLE, events, limit);
    assert Labelled(s.rows[r]);
  }

  /** If the run ends here, its row is closed once, with its own outcome. */
  predicate Stores(s: State, r: nat, ok: bool, limit: int)
    requires Staffed(s) && r in s.rows
  {
    s.workers[r] == Body ==>
      var row := Next(s, Finish(r, ok), limit).rows[r];
      row.status == Outcome(ok) && ClosedTimes(row) == 1
  }

  /** A row whose worker died is closed as soon as a run that started more than the limit later has marked. */
  lemma CrashedRowsAreClosed(events: seq<Event>, limit: nat, r: nat, c: nat)
    requires var s := Trace(IDLE, events, limit);
             r in s.rows && c in s.rows && s.rows[c].hasMarked && s.rows[c].startedAt > s.rows[r].startedAt + limit
    ensures Trace(IDLE, events, limit).rows[r].status != Running
  {
    TraceKeepsSound(IDLE, events, limit);
  }

  /** A start closes a running row exactly when it comes more than the limit after that row's own start. */
  lemma MarkedExactlyWhenOlder(s: State, c: nat, r: nat, limit: nat)
    requires Sound(s, limit) && c in s.rows && r in s.rows && r != c && s.workers[c] == Starting &&
      s.rows[r].status == Running
    ensures Next(s, Mark(c), limit).rows[r].status != Running <==> s.rows[c].startedAt > s.rows[r].startedAt + limit
    ensures Next(s, Mark(c), limit).rows[r].status != Running ==> s.now > s.rows[r].startedAt + limit
  {
  }

  /** The bound is needed: a run that outlives the limit can be closed and counted as failed and again as succeeded. */
  lemma OverstayingRunIsClosedTwice(s: State, c: nat, r: nat, limit: nat)
    requires Sound(s, limit) && c in s.rows && r in s.rows && r != c && s.workers[c] == Starting && s.workers[r] == Body
    requires s.rows[r].status == Running && s.rows[c].startedAt > s.rows[r].startedAt + limit
    ensures var z := Next(Next(s, Mark(c), limit), Finish(r, true), limit);
            z.rows[r].status == Succeeded && z.rows[r].succeededTimes == 1 && z.rows[r].failedTimes == 1
  {
    MarkedExactlyWhenOlder(s, c, r, limit);
  }

  // ------------------------------------------------------ closed exactly once

  /** A run that started more than the limit after this one has marked. */
  ghost predicate Outlived(rows: map<nat, Row>, r: nat, limit: int)
    requires r in rows
  {
    exists c :: c in rows && rows[c].hasMarked && rows[c].startedAt > rows[r].startedAt + limit
  }

  /** The row of a run at work is open, or was closed once, by a run that started past the limit. */
  ghost predicate OpenOrOutlived(s: State, r: nat, limit: int) {
    Live(s, r) && s.rows[r].status != Running ==> ClosedTimes(s.rows[r]) == 1 && Outlived(s.rows, r, limit)
  }

  lemma OutlivedStays(s: State, e: Event, r: nat, limit: int)
    requires Staffed(s) && r in s.rows && Outlived(s.rows, r, limit)
    ensures r in Next(s, e, limit).rows && Outlived(Next(s, e, limit).rows, r, limit)
  {
    var c :| c in s.rows && s.rows[c].hasMarked && s.rows[c].startedAt > s.rows[r].startedAt + limit;
    MarkStays(s, e, c, limit);
    MarkStays(s, e, r, limit);
  }

  lemma MarkStays(s: State, e: Event, c: nat, limit: int)
    requires Staffed(s) && c in s.rows
    ensures var s' := Next(s, e, limit);
            c in s'.rows && (s.rows[c].hasMarked ==> s'.rows[c].hasMarked)
            && s'.rows[c].startedAt == s.rows[c].startedAt
  {
  }

  /** A closed row is written again by the final save of its own worker only. */
  lemma ClosedIsLeftAlone(s: State, e: Event, r: nat, limit: int)
    requires Staffed(s) && r in s.rows && s.rows[r].status != Running
    requires e.Finish? && e.run == r ==> s.workers[r] != Body
    ensures var s' := Next(s, e, limit);
            r in s'.rows && ClosedTimes(s'.rows[r]) == ClosedTimes(s.rows[r]) && s'.rows[r].status == s.rows[r].status
    ensures !Working(s.workers[r]) ==> !Working(Next(s, e, limit).workers[r])
  {
  }

  lemma NextKeepsOutlived(s: State, e: Event, r: nat, limit: nat)
    requires Sound(s, limit) && (r in s.rows ==> OpenOrOutlived(s, r, limit))
    ensures OpenOrOutlived(Next(s, e, limit), r, limit)
  {
    if Live(Next(s, e, limit), r) && Next(s, e, limit).rows[r].status != Running {
      RowEvolves(s, e, r, limit);
      if r in s.rows && s.rows[r].status == Running {
        ClosedByLater(s, e, r, limit);
      } else if r in s.rows {
        OutlivedStays(s, e, r, limit);
        ClosedIsLeftAlone(s, e, r, limit);
      }
    }
  }

  lemma ClosedByLater(s: State, e: Event, r: nat, limit: nat)
    requires Sound(s, limit) && r in s.rows && s.rows[r].status == Running
    requires Live(Next(s, e, limit), r) && Next(s, e, limit).rows[r].status != Running
    ensures ClosedTimes(Next(s, e, limit).rows[r]) == 1 && Outlived(Next(s, e, limit).rows, r, limit)
  {
    assert Labelled(s.rows[r]) && e.Mark?;
    assert r in Stale(s.rows, e.run, limit);
    MarkStays(s, e, e.run, limit);
    MarkStays(s, e, r, limit);
    assert Next(s, e, limit).rows[e.run].hasMarked;
  }

  lemma {:induction false} TraceKeepsOutlived(s: State, events: seq<Event>, r: nat, limit: nat)
    requires Sound(s, limit) && (r in s.rows ==> OpenOrOutlived(s, r, limit))
    ensures OpenOrOutlived(Trace(s, events, limit), r, limit)
    decreases |events|
  {
    if events != [] {
      NextKeepsSound(s, events[0], limit);
      NextKeepsOutlived(s, events[0], r, limit);
      TraceKeepsOutlived(Next(s, events[0], limit), events[1..], r, limit);
    }
  }

  lemma {:induction false} TraceLeavesClosedAlone(s: State, events: seq<Event>, r: nat, limit: int)
    requires Staffed(s) && r in s.rows && s.rows[r].status != Running && !Working(s.workers[r])
    ensures var s' := Trace(s, events, limit);
            r in s'.rows && ClosedTimes(s'.rows[r]) == ClosedTimes(s.rows[r]) && s'.rows[r].status == s.rows[r].status
    decreases |events|
  {
    if events != [] {
      ClosedIsLeftAlone(s, events[0], r, limit);
      TraceLeavesClosedAlone(Next(s, events[0], limit), events[1..], r, limit);
    }
  }

  /**
   In every interleaving, the row of a run that ends is closed once if no run that started more than
   the limit later has marked by then, and twice otherwise. Nothing that follows closes it again.
   */
  lemma ClosedOnceExactly(events: seq<Event>, limit: nat, r: nat, ok: bool, after: seq<Event>)
    requires var s := Trace(IDLE, events, limit); r in s.rows && s.workers[r] == Body
    ensures var s := Trace(IDLE, events, limit);
            var z := Trace(Next(s, Finish(r, ok), limit), after, limit);
            r in z.rows && z.rows[r].status == (if ok then Succeeded else Failed)
            && ClosedTimes(z.rows[r]) == (if Outlived(s.rows, r, limit) then 2 else 1)
  {
    var s := Trace(IDLE, events, limit);
    TraceKeepsSound(IDLE, events, limit);
    TraceKeepsOutlived(IDLE, events, r, limit);
    assert Labelled(s.rows[r]) && Live(s, r);
    TraceLeavesClosedAlone(Next(s, Finish(r, ok), limit), after, r, limit);
  }

  lemma {:induction false} TraceConcat(s: State, a: seq<Event>, b: seq<Event>, limit: int)
    requires Staffed(s)
    ensures Trace(s, a + b, limit) == Trace(Trace(s, a, limit), b, limit)
    decreases |a|
  {
    if a == [] {
      assert a + b == b;
    } else {
      assert (a + b)[0] == a[0] && (a + b)[1..] == a[1..] + b;
      TraceConcat(Next(s, a[0], limit), a[1..], b, limit);
    }
  }

  lemma MarkAlone(s: State, row: Row, limit: nat)
    requires s.rows == map[1 := row] && s.workers == map[1 := Starting]
    ensures var s' := Next(s, Mark(1), limit);
            s'.rows == map[1 := row.(hasMarked := true)] && s'.workers == map[1 := Marking(0)] && s'.now == s.now
  {
    assert Stale(s.rows, 1, limit) == {};
    assert CloseAll(s.rows, {}) == s.rows;
  }

  lemma TraceSnoc(s: State, a: seq<Event>, e: Event, limit: int)
    requires Staffed(s)
    ensures Trace(s, a + [e], limit) == Next(Trace(s, a, limit), e, limit)
  {
    TraceConcat(s, a, [e], limit);
    Unroll(Trace(s, a, limit), [e], limit);
  }

  /** Some interleaving leads from the first state to this one. */
  ghost predicate Reached(z: State, limit: int) { exists events :: Trace(IDLE, events, limit) == z }

  lemma ReachedNext(z: State, e: Event, limit: int)
    requires Staffed(z) && Reached(z, limit)
    ensures Reached(Next(z, e, limit), limit)
  {
    var events :| Trace(IDLE, events, limit) == z;
    TraceSnoc(IDLE, events, e, limit);
  }

  predicate Looks(s: State, now: int, rows: map<nat, Row>, workers: map<nat, Phase>) {
    s.now == now && s.rows == rows && s.workers == workers
  }

  lemma StartLooks(s: State, r: nat, limit: nat)
    requires Staffed(s) && r !in s.rows
    ensures Looks(Next(s, Start(r), limit), s.now, s.rows[r := Row(s.now, Running, 0, 0, false)],
      s.workers[r := Starting])
  {
  }

  lemma CountLooks(s: State, r: nat, limit: nat)
    requires Staffed(s) && r in s.rows && s.workers[r].Marking?
    ensures Looks(Next(s, CountMarked(r), limit), s.now, s.rows, s.workers[r := Body])
  {
  }

  lemma WaitLooks(s: State, d: nat, limit: nat)
    requires Staffed(s)
    ensures Looks(Next(s, Wait(d), limit), s.now + d, s.rows, s.workers)
  {
  }

  function FirstRun(limit: nat): (s: State)
    ensures Staffed(s)
  {
    Next(Next(Next(IDLE, Start(1), limit), Mark(1), limit), CountMarked(1), limit)
  }

  lemma FirstRunLooks(limit: nat)
    ensures Reached(FirstRun(limit), limit)
    ensures Looks(FirstRun(limit), 0, map[1 := Row(0, Running, 0, 0, true)], map[1 := Body])
  {
    assert Trace(IDLE, [], limit) == IDLE;
    var s1 := Next(IDLE, Start(1), limit);
    ReachedNext(IDLE, Start(1), limit);
    StartLooks(IDLE, 1, limit);
    assert s1.rows == map[1 := Row(0, Running, 0, 0, false)] && s1.workers == map[1 := Starting];
    var s2 := Next(s1, Mark(1), limit);
    ReachedNext(s1, Mark(1), limit);
    MarkAlone(s1, Row(0, Running, 0, 0, false), limit);
    ReachedNext(s2, CountMarked(1), limit);
    CountLooks(s2, 1, limit);
  }

  /** A run of limit + 1 seconds and a second start. */
  function Overstayed(limit: nat): State {
    Next(Next(FirstRun(limit), Wait(limit + 1), limit), Start(2), limit)
  }

  /** A state of the kind above is reached that way. */
  lemma OverstayingRunIsReached(limit: nat)
    ensures Reached(Overstayed(limit), limit)
    ensures Looks(Overstayed(limit), limit + 1,
                  map[1 := Row(0, Running, 0, 0, true), 2 := Row(limit + 1, Running, 0, 0, false)],
                    map[1 := Body, 2 := Starting])
  {
    FirstRunLooks(limit);
    var s3 := FirstRun(limit);
    var s4 := Next(s3, Wait(limit + 1), limit);
    ReachedNext(s3, Wait(limit + 1), limit);
    WaitLooks(s3, limit + 1, limit);
    ReachedNext(s4, Start(2), limit);
    StartLooks(s4, 2, limit);
  }

  lemma Unroll(s: State, events: seq<Event>, limit: int)
    requires Staffed(s) && events != []
    ensures Trace(s, events, limit) == Trace(Next(s, events[0], limit), events[1..], limit)
  {
  }
}
