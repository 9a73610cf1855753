/**
 The update-or-create counter of the scheduled jobs (_increment in
 apps/actions/scheduled_jobs.py): UPDATE, then get-or-create, then a second UPDATE, with any
 number of callers interleaved and any of them lost on the way.
 */
module Counters {
  import opened Prelude

  /** Where a call of _increment stands. `Absent` has looked in get-or-create and seen no row. */
  datatype Phase = Fresh | Missed | Absent | Exists | Done | Lost

  datatype Call = Call(amount: int, phase: Phase)

  datatype State = State(row: Option<int>, calls: map<nat, Call>)

  const EMPTY := State(None, map[])

  datatype Event = Call(caller: nat, amount: int) | Advance(caller: nat) | Drop(caller: nat)

  /** The next database statement of one call. */
  function Statement(row: Option<int>, c: Call): (Option<int>, Phase) {
    match c.phase
    case Fresh =>
      if c.amount <= 0 then (row, Done)
      else if row.Some? then (Some(row.value + c.amount), Done)
      else (row, Missed)
    case Missed => (row, if row.Some? then Exists else Absent)
    case Absent => if row.Some? then (row, Exists) else (Some(c.amount), Done)
    case Exists => if row.Some? then (Some(row.value + c.amount), Done) else (row, Done)
    case Done => (row, Done)
    case Lost => (row, Lost)
  }

  function Next(s: State, e: Event): State {
    match e
    case Call(k, amount) => if k in s.calls then s else s.(calls := s.calls[k := Call.Call(amount, Fresh)])
    case Advance(k) =>
      if k !in s.calls then s
      else
        var (row, phase) := Statement(s.row, s.calls[k]);
        State(row, s.calls[k := s.calls[k].(phase := phase)])
    case Drop(k) =>
      if k in s.calls && s.calls[k].phase != Done then s.(calls := s.calls[k := s.calls[k].(phase := Lost)]) else s
  }

  function Trace(s: State, events: seq<Event>): State
    decreases |events|
  {
    if events == [] then s else Trace(Next(s, events[0]), events[1..])
  }

  /** The statements a call may still need. */
  function Remaining(p: Phase): nat {
    match p
    case Fresh => 4
    case Missed => 3
    case Absent => 2
    case Exists => 1
    case Done => 0
    case Lost => 0
  }

  function Turns(events: seq<Event>, k: nat): nat
    decreases |events|
  {
    if events == [] then 0 else (if events[0] == Advance(k) then 1 else 0) + Turns(events[1..], k)
  }

  /** Whatever the others do, a call that is not lost is done after at most four of its statements. */
  lemma {:induction false} CallsFinish(s: State, events: seq<Event>, k: nat)
    requires k in s.calls && s.calls[k].phase != Lost && Turns(events, k) >= Remaining(s.calls[k].phase)
    requires forall i :: 0 <= i < |events| ==> events[i] != Drop(k)
    ensures var z := Trace(s, events); k in z.calls && z.calls[k] == Call.Call(s.calls[k].amount, Done)
    decreases |events|
  {
    if events != [] { CallsFinish(Next(s, events[0]), events[1..], k); }
  }

  /** What a call has added so far: all of its amount once it is done, nothing before. */
  function Added(c: Call): int { if c.phase == Done && c.amount > 0 then c.amount else 0 }

  function Shares(calls: map<nat, Call>): map<nat, int> { map k | k in calls :: Added(calls[k]) }

  function Value(row: Option<int>): int { if row.Some? then row.value else 0 }

  ghost predicate Exact(s: State) {
    Value(s.row) == Sum(Shares(s.calls))
    && forall k :: k in s.calls && s.calls[k].phase == Exists ==> s.row.Some? && s.calls[k].amount > 0
  }

  predicate PositiveUnderWay(calls: map<nat, Call>) {
    forall k :: k in calls && (calls[k].phase == Missed || calls[k].phase == Absent) ==> calls[k].amount > 0
  }

  lemma SharesUpdate(calls: map<nat, Call>, k: nat, c: Call)
    ensures Sum(Shares(calls[k := c])) == Sum(Shares(calls)) + Added(c) - if k in calls then Added(calls[k]) else 0
  {
    assert Shares(calls[k := c]) == Shares(calls)[k := Added(c)];
    if k in calls { SumUpdate(Shares(calls), k, Added(c)); } else { SumInsert(Shares(calls), k, Added(c)); }
  }

  lemma NextKeepsExact(s: State, e: Event)
    requires Exact(s) && PositiveUnderWay(s.calls)
    ensures Exact(Next(s, e)) && PositiveUnderWay(Next(s, e).calls)
  {
    match e
    case Call(k, amount) => SharesUpdate(s.calls, k, Call.Call(amount, Fresh));
    case Advance(k) =>
      if k in s.calls { SharesUpdate(s.calls, k, s.calls[k].(phase := Statement(s.row, s.calls[k]).1)); }
    case Drop(k) =>
      if k in s.calls { SharesUpdate(s.calls, k, s.calls[k].(phase := Lost)); }
  }

  lemma {:induction false} TraceIsExact(s: State, events: seq<Event>)
    requires Exact(s) && PositiveUnderWay(s.calls)
    ensures Exact(Trace(s, events))
    decreases |events|
  {
    if events != [] {
      NextKeepsExact(s, events[0]);
      TraceIsExact(Next(s, events[0]), events[1..]);
    }
  }

  /**
   In every interleaving the counter holds exactly the amounts of the calls that finished: none
   is lost to a race for the first row, none is added twice, and a call that is still under way
   or was lost has added nothing.
   */
  lemma CounterIsSumOfFinishedCalls(events: seq<Event>)
    ensures var s := Trace(EMPTY, events); Value(s.row) == Sum(Shares(s.calls))
  {
    assert Shares(map[]) == map[];
    TraceIsExact(EMPTY, events);
  }

  class Counter {
    var value: Option<int>

    method Update(amount: int) returns (updated: bool)
      modifies this
      ensures updated <==> old(value).Some?
      ensures value == if updated then Some(old(value).value + amount) else None
    {
      updated := value.Some?;
      if updated { value := Some(value.value + amount); }
    }

    method GetOrCreate(default': int) returns (created: bool)
      modifies this
      ensures created <==> old(value).None?
      ensures value == if created then Some(default') else old(value)
    {
      created := value.None?;
      if created { value := Some(default'); }
    }

    /** One call; `racing` is the row another call may insert between the first UPDATE and get-or-create. */
    method Increment(amount: int, racing: Option<int>)
      modifies this
      ensures amount <= 0 ==> value == old(value)
      ensures amount > 0 && old(value).Some? ==> value == Some(old(value).value + amount)
      ensures amount > 0 && old(value).None? ==> value == Some(Value(racing) + amount)
    {
      if amount <= 0 { return; }
      var updated := Update(amount);
      if updated { return; }
      value := racing;
      var created := GetOrCreate(amount);
      if !created { updated := Update(amount); }
    }
  }
}
