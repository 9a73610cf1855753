/**
 Scheduled jobs under their lock (apps/actions/tasks.py with config/task_lock.py and
 apps/actions/scheduled_jobs.py). A task takes the lock, whose time to live is the job's run
 limit, and then records its run; runs of an external scheduler record without the lock.
 */
module LockedRuns {
  import Lock = TaskLock
  import Runs = ScheduledRuns

  /** Lock and run rows of one job on one clock; a task's token is the number of its run. */
  datatype State = State(key: Lock.State, job: Runs.State)

  const IDLE := State(Lock.FREE, Runs.IDLE)

  datatype Event =
    | OnLock(lockEvent: Lock.Event)
    | OnRun(runEvent: Runs.Event)
    | Wait(seconds: nat)

  /** Tasks enter with the run limit as time to live, and record a run only after they got in. */
  predicate Enabled(s: State, e: Event, limit: int) {
    match e
    case OnLock(Enter(t, ttl)) => ttl == limit && t !in s.job.rows
    case OnLock(le) => !le.Wait?
    case OnRun(Start(r)) => r in s.key.runs ==> s.key.runs[r].Inside?
    case OnRun(re) => !re.Wait?
    case Wait(_) => true
  }

  /** An event that is not enabled changes nothing. */
  function Next(s: State, e: Event, limit: int): State
    requires Runs.Staffed(s.job)
    ensures Runs.Staffed(Next(s, e, limit).job)
  {
    if !Enabled(s, e, limit) then s
    else
      match e
      case OnLock(le) => s.(key := Lock.Next(s.key, le))
      case OnRun(re) => s.(job := Runs.Next(s.job, re, limit))
      case Wait(d) => State(Lock.Next(s.key, Lock.Wait(d)), Runs.Next(s.job, Runs.Wait(d), limit))
  }

  function Trace(s: State, events: seq<Event>, limit: int): State
    requires Runs.Staffed(s.job)
    ensures Runs.Staffed(Trace(s, events, limit).job)
    decreases |events|
  {
    if events == [] then s else Trace(Next(s, events[0], limit), events[1..], limit)
  }

  /** A task's run is recorded after the task got in, and its hold lasts for the run limit. */
  predicate Nested(s: State, limit: int) {
    s.key.now == s.job.now
    && (forall t :: t in s.key.runs && (s.key.runs[t].Inside? || s.key.runs[t].Leaving?) ==>
          s.key.runs[t].ttl == limit && s.key.runs[t].since <= s.key.now
          && (t in s.job.rows ==> s.key.runs[t].since <= s.job.rows[t].startedAt))
  }

  ghost predicate Sound(s: State, limit: int) {
    Lock.Safe(s.key) && Runs.Sound(s.job, limit) && Runs.LateIfClosed(s.job, limit) && Nested(s, limit)
  }

  lemma NextKeepsNested(s: State, e: Event, limit: nat)
    requires Sound(s, limit) && limit >= 1
    ensures Nested(Next(s, e, limit), limit)
  {
    var s' := Next(s, e, limit);
    forall t | t in s'.key.runs && (s'.key.runs[t].Inside? || s'.key.runs[t].Leaving?)
      ensures s'.key.runs[t].ttl == limit && s'.key.runs[t].since <= s'.key.now
      ensures t in s'.job.rows ==> s'.key.runs[t].since <= s'.job.rows[t].startedAt
    {
      if e.OnRun? && t in s'.job.rows { Runs.RowEvolves(s.job, e.runEvent, t, limit); }
      if e.Wait? && t in s'.job.rows { Runs.RowEvolves(s.job, Runs.Wait(e.seconds), t, limit); }
    }
  }

  lemma NextKeepsSound(s: State, e: Event, limit: nat)
    requires Sound(s, limit) && limit >= 1
    ensures Sound(Next(s, e, limit), limit)
  {
    NextKeepsNested(s, e, limit);
    match e
    case OnLock(le) => Lock.NextKeepsSafe(s.key, le);
    case OnRun(re) =>
      Runs.NextKeepsSound(s.job, re, limit);
      Runs.NextKeepsLate(s.job, re, limit);
    case Wait(d) =>
      Lock.NextKeepsSafe(s.key, Lock.Wait(d));
      Runs.NextKeepsSound(s.job, Runs.Wait(d), limit);
      Runs.NextKeepsLate(s.job, Runs.Wait(d), limit);
  }

  lemma {:induction false} TraceKeepsSound(s: State, events: seq<Event>, limit: nat)
    requires Sound(s, limit) && limit >= 1
    ensures Sound(Trace(s, events, limit), limit)
    decreases |events|
  {
    if events != [] {
      NextKeepsSound(s, events[0], limit);
      TraceKeepsSound(Next(s, events[0], limit), events[1..], limit);
    }
  }

  /**
   Whatever tasks, external runs and crashes do, a task that still holds its key has not been
   marked interrupted, its run closes its row exactly once, and no other task holds the key. No
   bound on how long runs last is assumed.
   */
  lemma HoldersAreSpared(events: seq<Event>, limit: nat, r: nat)
    requires limit >= 1
    requires var s := Trace(IDLE, events, limit); r in s.key.runs && Lock.Holds(s.key, r) && Runs.Live(s.job, r)
    ensures var s := Trace(IDLE, events, limit);
            s.job.rows[r].status == Runs.Running
            && Runs.Stores(s.job, r, true, limit) && Runs.Stores(s.job, r, false, limit)
    ensures var s := Trace(IDLE, events, limit); forall t :: t in s.key.runs && Lock.Holds(s.key, t) ==> t == r
  {
    TraceKeepsSound(IDLE, events, limit);
    var s := Trace(IDLE, events, limit);
    assert Runs.Labelled(s.job.rows[r]);
    forall t | t in s.key.runs && Lock.Holds(s.key, t) ensures t == r {
      assert s.key.key.value.token == t && s.key.key.value.token == r;
    }
  }
}
