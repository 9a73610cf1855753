/**
 One retry run (retry_pending_webhooks in apps/actions/delivery.py) on top of the outbox
 protocol, and the figures stored for it (retry_webhooks.run_counts). Between two steps of
 the loop the rest of the system acts: dispatch, other retry runs, and this run's own workers.
 */
module RetryRun {
  import opened Prelude
  import Outbox

  // ------------------------------------------------------------- the outbox

  datatype Kind = Webhook | Email

  datatype Slot = Slot(delivery: Outbox.State, kind: Kind)

  /** The outbox table, with every id it ever held: ids are never reused. */
  datatype Table = Table(rows: map<nat, Slot>, used: set<nat>)

  datatype TableEvent =
    | OnRow(id: nat, event: Outbox.Event)
    | Create(id: nat, kind: Kind)
    | Delete(id: nat)

  function NextTable(t: Table, e: TableEvent, maxAttempts: int): Table {
    match e
    case OnRow(id, event) =>
      if id in t.rows
      then t.(rows := t.rows[id := t.rows[id].(delivery := Outbox.Next(t.rows[id].delivery, event, maxAttempts))])
      else t
    case Create(id, kind) =>
      if id in t.used then t
      else t.(rows := t.rows[id := Slot(Outbox.FRESH, kind)], used := t.used + {id})
    case Delete(id) => t.(rows := t.rows - {id})
  }

  function RunTable(t: Table, events: seq<TableEvent>, maxAttempts: int): Table
    decreases |events|
  {
    if events == [] then t else RunTable(NextTable(t, events[0], maxAttempts), events[1..], maxAttempts)
  }

  predicate Claimable(t: Table, id: nat, now: int) { id in t.rows && Outbox.Eligible(t.rows[id].delivery.row, now) }

  /** A row this run cannot claim, now or later. */
  predicate Barred(t: Table, id: nat, now: int) { id in t.used && !Claimable(t, id, now) }

  /**
   What the rest of the system may do during the run: anything but a requeue or a dry run's
   unlock, with positive leases and a wall clock that has passed the start of the run.
   */
  predicate Gentle(e: TableEvent, now: int) {
    e.OnRow? ==>
      match e.event
      case Finish(_, _, at) => at >= now
      case Claim(_, lease) => lease > 0
      case Unlock => false
      case Requeue => false
      case _ => true
  }

  /** Leases of other runs and new attempt times always lie beyond `now`, so barred rows stay barred. */
  lemma GentleKeepsBarred(t: Table, e: TableEvent, id: nat, now: int, maxAttempts: int)
    requires Barred(t, id, now) && Gentle(e, now)
    ensures Barred(NextTable(t, e, maxAttempts), id, now)
  {
    if e.OnRow? && e.event.Finish? && e.event.posted.Answer? && e.id in t.rows {
      Outbox.DelayBounds(t.rows[e.id].delivery.row.attemptCount + 1, e.event.posted.httpStatus,
        e.event.posted.retryAfter);
    }
  }

  lemma {:induction false} GentleRunKeepsBarred(t: Table, events: seq<TableEvent>, id: nat, now: int, maxAttempts: int)
    requires Barred(t, id, now)
    requires forall i :: 0 <= i < |events| ==> Gentle(events[i], now)
    ensures Barred(RunTable(t, events, maxAttempts), id, now)
    decreases |events|
  {
    if events != [] {
      GentleKeepsBarred(t, events[0], id, now, maxAttempts);
      GentleRunKeepsBarred(NextTable(t, events[0], maxAttempts), events[1..], id, now, maxAttempts);
    }
  }

  lemma {:induction false} RunKeepsUsed(t: Table, events: seq<TableEvent>, maxAttempts: int)
    requires t.rows.Keys <= t.used
    ensures var z := RunTable(t, events, maxAttempts); z.rows.Keys <= z.used && t.used <= z.used
    decreases |events|
  {
    if events != [] { RunKeepsUsed(NextTable(t, events[0], maxAttempts), events[1..], maxAttempts); }
  }

  // ---------------------------------------------------------------- figures

  /** The four figures of a run, over all rows and over the email rows among them. */
  datatype Channel = Channel(processed: nat, delivered: nat, retried: nat, dead: nat)

  datatype Stats = Stats(total: Channel, email: Channel)

  const NONE := Channel(0, 0, 0, 0)
  const EMPTY := Stats(NONE, NONE)

  /** A claimed row: its id, its kind, and its status when it was claimed. */
  datatype Job = Job(id: nat, kind: Kind, before: Outbox.Status)

  /** The status a worker found after its delivery, or none when the row was gone. */
  type After = Option<Outbox.Status>

  function SummarizeDeliveryResult(before: Outbox.Status, after: After, kind: Kind): Stats {
    if after.None? then EMPTY else
      var delivered := if after.value.Delivered? then 1 else 0;
      var dead := if after.value.Dead? then 1 else 0;
      var retried :=
        if after.value.Delivered? || after.value.Dead? then 0
        else if after.value.Failed? then 1
        else if before.Pending? || before.Failed? then 1
        else 0;
      var delta := Channel(1, delivered, retried, dead);
      Stats(delta, if kind.Email? then delta else NONE)
  }

  function Plus(c: Channel, d: Channel): Channel {
    Channel(c.processed + d.processed, c.delivered + d.delivered, c.retried + d.retried, c.dead + d.dead)
  }

  function Merge(s: Stats, d: Stats): Stats { Stats(Plus(s.total, d.total), Plus(s.email, d.email)) }

  /** How a delivery can end for the figures. */
  datatype Figure = Processed | Delivered | Dead | StillOpen

  predicate Shows(a: After, f: Figure) {
    a.Some? &&
    match f
    case Processed => true
    case Delivered => a.value.Delivered?
    case Dead => a.value.Dead?
    case StillOpen => a.value.Pending? || a.value.Failed?
  }

  predicate Tallies(jobs: seq<Job>, after: nat -> After, f: Figure, emailOnly: bool, k: nat) {
    Shows(after(k), f) && (emailOnly ==> k < |jobs| && jobs[k].kind.Email?)
  }

  /** How many of the merged claims ended as `f` says, among all rows or among email rows. */
  function Tally(jobs: seq<Job>, merged: set<nat>, after: nat -> After, f: Figure, emailOnly: bool): nat {
    |Tallied(jobs, merged, after, f, emailOnly)|
  }

  function Tallied(jobs: seq<Job>, merged: set<nat>, after: nat -> After, f: Figure, emailOnly: bool): set<nat> {
    set k | k in merged && Tallies(jobs, after, f, emailOnly, k)
  }

  lemma TallyAdd(jobs: seq<Job>, merged: set<nat>, k: nat, after: nat -> After, f: Figure, emailOnly: bool)
    requires k !in merged
    ensures Tally(jobs, merged + {k}, after, f, emailOnly)
         == Tally(jobs, merged, after, f, emailOnly) + if Tallies(jobs, after, f, emailOnly, k) then 1 else 0
  {
    var more := if Tallies(jobs, after, f, emailOnly, k) then {k} else {};
    TalliedAdd(jobs, merged, k, after, f, emailOnly);
    assert k !in Tallied(jobs, merged, after, f, emailOnly);
  }

  lemma TalliedAdd(jobs: seq<Job>, merged: set<nat>, k: nat, after: nat -> After, f: Figure, emailOnly: bool)
    ensures Tallied(jobs, merged + {k}, after, f, emailOnly) == Tallied(jobs, merged, after, f, emailOnly)
         + if Tallies(jobs, after, f, emailOnly, k) then {k} else {}
  {
  }

  lemma TallyExtend(jobs: seq<Job>, job: Job, merged: set<nat>, after: nat -> After, f: Figure, emailOnly: bool)
    requires forall k :: k in merged ==> k < |jobs|
    ensures Tally(jobs + [job], merged, after, f, emailOnly) == Tally(jobs, merged, after, f, emailOnly)
  {
    forall k | k in merged ensures Tallies(jobs + [job], after, f, emailOnly, k) <==>
      Tallies(jobs, after, f, emailOnly, k) {}
    assert Tallied(jobs + [job], merged, after, f, emailOnly) == Tallied(jobs, merged, after, f, emailOnly);
  }

  function ChannelOf(jobs: seq<Job>, merged: set<nat>, after: nat -> After, emailOnly: bool): Channel {
    Channel(Tally(jobs, merged, after, Processed, emailOnly), Tally(jobs, merged, after, Delivered, emailOnly),
            Tally(jobs, merged, after, StillOpen, emailOnly), Tally(jobs, merged, after, Dead, emailOnly))
  }

  /** The figures that the merged claims call for. */
  function StatsOf(jobs: seq<Job>, merged: set<nat>, after: nat -> After): Stats {
    Stats(ChannelOf(jobs, merged, after, false), ChannelOf(jobs, merged, after, true))
  }

  predicate OpenJobs(jobs: seq<Job>) {
    forall k :: 0 <= k < |jobs| ==> jobs[k].before == Outbox.Pending || jobs[k].before == Outbox.Failed
  }

  /** One of the four figures. */
  function Part(c: Channel, f: Figure): nat {
    match f
    case Processed => c.processed
    case Delivered => c.delivered
    case Dead => c.dead
    case StillOpen => c.retried
  }

  /** The figures of one delivery are the tallies of its claim. */
  lemma DeltaTallies(jobs: seq<Job>, k: nat, after: nat -> After, f: Figure, emailOnly: bool)
    requires OpenJobs(jobs) && k < |jobs|
    ensures var delta := SummarizeDeliveryResult(jobs[k].before, after(k), jobs[k].kind);
            Part(if emailOnly then delta.email else delta.total, f)
            == if Tallies(jobs, after, f, emailOnly, k) then 1 else 0
  {
  }

  lemma PartOfChannel(jobs: seq<Job>, merged: set<nat>, after: nat -> After, f: Figure, emailOnly: bool)
    ensures Part(ChannelOf(jobs, merged, after, emailOnly), f) == Tally(jobs, merged, after, f, emailOnly)
  {
  }

  lemma PlusIs(c: Channel, d: Channel, sum: Channel)
    requires forall f :: Part(sum, f) == Part(c, f) + Part(d, f)
    ensures sum == Plus(c, d)
  {
    assert Part(sum, Processed) == Part(c, Processed) + Part(d, Processed);
    assert Part(sum, Delivered) == Part(c, Delivered) + Part(d, Delivered);
    assert Part(sum, Dead) == Part(c, Dead) + Part(d, Dead);
    assert Part(sum, StillOpen) == Part(c, StillOpen) + Part(d, StillOpen);
  }

  lemma PartAdd(jobs: seq<Job>, merged: set<nat>, k: nat, after: nat -> After, f: Figure, emailOnly: bool)
    requires OpenJobs(jobs) && k < |jobs| && k !in merged
    ensures var delta := SummarizeDeliveryResult(jobs[k].before, after(k), jobs[k].kind);
            Part(ChannelOf(jobs, merged + {k}, after, emailOnly), f)
            == Part(ChannelOf(jobs, merged, after, emailOnly), f)
              + Part(if emailOnly then delta.email else delta.total, f)
  {
    DeltaTallies(jobs, k, after, f, emailOnly);
    TallyAdd(jobs, merged, k, after, f, emailOnly);
    PartOfChannel(jobs, merged, after, f, emailOnly);
    PartOfChannel(jobs, merged + {k}, after, f, emailOnly);
  }

  lemma ChannelAdd(jobs: seq<Job>, merged: set<nat>, k: nat, after: nat -> After, emailOnly: bool)
    requires OpenJobs(jobs) && k < |jobs| && k !in merged
    ensures var delta := SummarizeDeliveryResult(jobs[k].before, after(k), jobs[k].kind);
            ChannelOf(jobs, merged + {k}, after, emailOnly)
            == Plus(ChannelOf(jobs, merged, after, emailOnly), if emailOnly then delta.email else delta.total)
  {
    var delta := SummarizeDeliveryResult(jobs[k].before, after(k), jobs[k].kind);
    var d := if emailOnly then delta.email else delta.total;
    var c, sum := ChannelOf(jobs, merged, after, emailOnly), ChannelOf(jobs, merged + {k}, after, emailOnly);
    forall f ensures Part(sum, f) == Part(c, f) + Part(d, f) { PartAdd(jobs, merged, k, after, f, emailOnly); }
    PlusIs(c, d, sum);
  }

  lemma MergeOne(jobs: seq<Job>, merged: set<nat>, k: nat, after: nat -> After)
    requires OpenJobs(jobs) && k < |jobs| && k !in merged
    ensures Merge(StatsOf(jobs, merged, after), SummarizeDeliveryResult(jobs[k].before, after(k), jobs[k].kind))
         == StatsOf(jobs, merged + {k}, after)
  {
    ChannelAdd(jobs, merged, k, after, false);
    ChannelAdd(jobs, merged, k, after, true);
  }

  lemma StatsExtend(jobs: seq<Job>, job: Job, merged: set<nat>, after: nat -> After)
    requires forall k :: k in merged ==> k < |jobs|
    ensures StatsOf(jobs + [job], merged, after) == StatsOf(jobs, merged, after)
  {
    forall f, emailOnly
      ensures Tally(jobs + [job], merged, after, f, emailOnly) == Tally(jobs, merged, after, f, emailOnly)
    {
      TallyExtend(jobs, job, merged, after, f, emailOnly);
    }
  }

  // ------------------------------------------------------------ run_counts

  datatype Counts = Counts(attempted: int, succeeded: int, failed: int, givenUp: int)

  /** The figures stored on the run, per channel. */
  function RunCounts(s: Stats): (Counts, Counts) {
    (Counts(s.total.processed - s.email.processed, s.total.delivered - s.email.delivered,
            s.total.retried - s.email.retried, s.total.dead - s.email.dead),
     Counts(s.email.processed, s.email.delivered, s.email.retried, s.email.dead))
  }

  predicate AddsUp(c: Counts) {
    c.succeeded >= 0 && c.failed >= 0 && c.givenUp >= 0 && c.attempted == c.succeeded + c.failed + c.givenUp
  }

  /** The merged claims of one kind whose rows were found in one of the statuses. */
  function Found(jobs: seq<Job>, merged: set<nat>, after: nat -> After, kind: Kind, statuses: set<Outbox.Status>)
    : set<nat>
  {
    set k | k in merged && k < |jobs| && jobs[k].kind == kind && after(k).Some? && after(k).value in statuses
  }

  /** The figures of a channel, by the statuses that its rows were found in. */
  function CountsOf(jobs: seq<Job>, merged: set<nat>, after: nat -> After, kind: Kind): Counts {
    Counts(
      |Found(jobs, merged, after, kind, {Outbox.Pending, Outbox.Failed, Outbox.Delivered, Outbox.Dead})|,
      |Found(jobs, merged, after, kind, {Outbox.Delivered})|,
      |Found(jobs, merged, after, kind, {Outbox.Pending, Outbox.Failed})|,
      |Found(jobs, merged, after, kind, {Outbox.Dead})|)
  }

  function StatusesOf(f: Figure): set<Outbox.Status> {
    match f
    case Processed => {Outbox.Pending, Outbox.Failed, Outbox.Delivered, Outbox.Dead}
    case Delivered => {Outbox.Delivered}
    case Dead => {Outbox.Dead}
    case StillOpen => {Outbox.Pending, Outbox.Failed}
  }

  lemma ShownIsStatus(a: After, f: Figure)
    ensures Shows(a, f) <==> a.Some? && a.value in StatusesOf(f)
  {
    assert a.Some? ==> a.value.Pending? || a.value.Failed? || a.value.Delivered? || a.value.Dead?;
  }

  lemma FoundIsTallied(jobs: seq<Job>, merged: set<nat>, after: nat -> After, f: Figure, k: nat)
    requires forall k :: k in merged ==> k < |jobs|
    ensures k in Tallied(jobs, merged, after, f, true) <==> k in Found(jobs, merged, after, Email, StatusesOf(f))
    ensures k in Tallied(jobs, merged, after, f, false)
      <==> (k in Found(jobs, merged, after, Webhook, StatusesOf(f))
            || k in Found(jobs, merged, after, Email, StatusesOf(f)))
  {
    ShownIsStatus(after(k), f);
    if k in merged { assert jobs[k].kind == Webhook || jobs[k].kind == Email; }
  }

  lemma TallyByKind(jobs: seq<Job>, merged: set<nat>, after: nat -> After, f: Figure)
    requires forall k :: k in merged ==> k < |jobs|
    ensures Tally(jobs, merged, after, f, true) == |Found(jobs, merged, after, Email, StatusesOf(f))|
    ensures Tally(jobs, merged, after, f, false)
      == |Found(jobs, merged, after, Webhook, StatusesOf(f))| + |Found(jobs, merged, after, Email, StatusesOf(f))|
  {
    forall k: nat { FoundIsTallied(jobs, merged, after, f, k); }
    UnionSizes(Tallied(jobs, merged, after, f, true), Tallied(jobs, merged, after, f, false),
      Found(jobs, merged, after, Webhook, StatusesOf(f)), Found(jobs, merged, after, Email, StatusesOf(f)));
  }

  lemma UnionSizes(some: set<nat>, all: set<nat>, a: set<nat>, b: set<nat>)
    requires forall k :: k in some <==> k in b
    requires forall k :: k in all <==> k in a || k in b
    requires a !! b
    ensures |some| == |b| && |all| == |a| + |b|
  {
    assert some == b && all == a + b;
  }

  /** The figures stored for a run are, webhooks first, how the merged claims of each kind were found to have ended. */
  lemma RunCountsAreFound(jobs: seq<Job>, merged: set<nat>, after: nat -> After)
    requires forall k :: k in merged ==> k < |jobs|
    ensures RunCounts(StatsOf(jobs, merged, after))
      == (CountsOf(jobs, merged, after, Webhook), CountsOf(jobs, merged, after, Email))
  {
    TallyByKind(jobs, merged, after, Processed);
    TallyByKind(jobs, merged, after, Delivered);
    TallyByKind(jobs, merged, after, StillOpen);
    TallyByKind(jobs, merged, after, Dead);
  }

  /** Every ended delivery is delivered, dead or still open, and email rows are some of all rows. */
  lemma TallyPartition(jobs: seq<Job>, merged: set<nat>, after: nat -> After, emailOnly: bool)
    ensures Tally(jobs, merged, after, Processed, emailOnly)
         == Tally(jobs, merged, after, Delivered, emailOnly) + Tally(jobs, merged, after, StillOpen, emailOnly)
          + Tally(jobs, merged, after, Dead, emailOnly)
  {
    var all := Tallied(jobs, merged, after, Processed, emailOnly);
    var delivered := Tallied(jobs, merged, after, Delivered, emailOnly);
    var open := Tallied(jobs, merged, after, StillOpen, emailOnly);
    var dead := Tallied(jobs, merged, after, Dead, emailOnly);
    assert all == delivered + open + dead;
    assert delivered !! open !! dead;
  }

  lemma TallyEmail(jobs: seq<Job>, merged: set<nat>, after: nat -> After, f: Figure)
    ensures Tally(jobs, merged, after, f, true) <= Tally(jobs, merged, after, f, false)
  {
    SubsetSize(Tallied(jobs, merged, after, f, true), Tallied(jobs, merged, after, f, false));
  }

  lemma {:induction false} SubsetSize(a: set<nat>, b: set<nat>)
    requires a <= b
    ensures |a| <= |b|
  {
    assert b == a + (b - a) && a !! b - a;
  }

  /** For both channels no figure of a run is negative and attempted is succeeded plus failed plus given up. */
  lemma RunCountsAddUp(jobs: seq<Job>, merged: set<nat>, after: nat -> After)
    ensures var (webhook, email) := RunCounts(StatsOf(jobs, merged, after)); AddsUp(webhook) && AddsUp(email)
  {
    TallyPartition(jobs, merged, after, false);
    TallyPartition(jobs, merged, after, true);
    TallyEmail(jobs, merged, after, Delivered);
    TallyEmail(jobs, merged, after, StillOpen);
    TallyEmail(jobs, merged, after, Dead);
  }

  // ---------------------------------------------------------------- the run

  /**
   What the run cannot decide, step by step: the rest of the system, the row a claim finds, the
   workers, the clock.
   */
  datatype World = World(
    events: nat -> seq<TableEvent>,
    pick: nat -> Option<nat>,
    done: (nat, set<nat>) -> set<nat>,
    after: nat -> After,
    clock: nat -> int)

  ghost predicate Passing(clock: nat -> int) { forall i: nat :: clock(i) < clock(i + 1) }

  ghost predicate GentleWorld(w: World, now: int) {
    forall n: nat, i :: 0 <= i < |w.events(n)| ==> Gentle(w.events(n)[i], now)
  }

  /** Nobody adds rows meanwhile. */
  ghost predicate NoNewRows(w: World) {
    forall n: nat, i :: 0 <= i < |w.events(n)| ==> !w.events(n)[i].Create?
  }

  /** Waiting for running workers brings at least one result. */
  ghost predicate Responsive(w: World) {
    forall n: nat, running: set<nat> :: running != {} ==> w.done(n, running) * running != {}
  }

  /** A closed world in which the run ends by itself, whatever the clock shows. */
  ghost predicate Settled(w: World, now: int) { GentleWorld(w, now) && NoNewRows(w) && Responsive(w) }

  predicate Distinct(jobs: seq<Job>) {
    forall j, k :: 0 <= j < k < |jobs| ==> jobs[j].id != jobs[k].id
  }

  /** The claims that are neither merged nor lost: all claims are one or the other. */
  ghost predicate Split(jobs: seq<Job>, merged: set<nat>, inFlight: set<nat>) {
    merged !! inFlight && forall k: nat :: k < |jobs| <==> k in merged || k in inFlight
  }

  /** Merges the results of finished workers one by one. */
  method MergeDone(stats: Stats, jobs: seq<Job>, ghost merged: set<nat>, done: set<nat>, after: nat -> After)
    returns (r: Stats)
    requires OpenJobs(jobs) && stats == StatsOf(jobs, merged, after)
    requires merged !! done && forall k :: k in done ==> k < |jobs|
    ensures r == StatsOf(jobs, merged + done, after)
  {
    r := stats;
    var todo := done;
    ghost var soFar := merged;
    while todo != {}
      invariant todo <= done && r == StatsOf(jobs, soFar, after)
      invariant forall k :: k in soFar <==> k in merged || (k in done && k !in todo)
      decreases |todo|
    {
      var k :| k in todo;
      MergeOne(jobs, soFar, k, after);
      r := Merge(r, SummarizeDeliveryResult(jobs[k].before, after(k), jobs[k].kind));
      todo, soFar := todo - {k}, soFar + {k};
    }
    assert soFar == merged + done;
  }

  /**
   The claim of one retryable row; rows locked by another transaction are skipped, so any eligible
   row or none may come.
   */
  method ClaimNext(t: Table, choice: Option<nat>, now: int, lease: int, maxAttempts: int)
    returns (job: Option<Job>, t': Table)
    ensures job.Some? <==> choice.Some? && Claimable(t, choice.value, now)
    ensures job.Some? ==>
      var slot := t.rows[choice.value];
      job.value == Job(choice.value, slot.kind, slot.delivery.row.status)
    ensures job.Some? ==> t' == NextTable(t, OnRow(choice.value, Outbox.Claim(now, lease)), maxAttempts)
    ensures job.None? ==> t' == t
  {
    if choice.Some? && Claimable(t, choice.value, now) {
      var slot := t.rows[choice.value];
      job := Some(Job(choice.value, slot.kind, slot.delivery.row.status));
      t' := NextTable(t, OnRow(choice.value, Outbox.Claim(now, lease)), maxAttempts);
    } else {
      job, t' := None, t;
    }
  }

  function EmailJobs(jobs: seq<Job>): nat { |set k | 0 <= k < |jobs| && jobs[k].kind.Email?| }

  lemma EmailJobsExtend(jobs: seq<Job>, job: Job)
    ensures EmailJobs(jobs + [job]) == EmailJobs(jobs) + if job.kind.Email? then 1 else 0
  {
    var before := set k | 0 <= k < |jobs| && jobs[k].kind.Email?;
    var grown := set k | 0 <= k < |jobs + [job]| && (jobs + [job])[k].kind.Email?;
    assert grown == if job.kind.Email? then before + {|jobs|} else before;
  }

  /** Every claim so far is barred, so the next one is a different row. */
  predicate AllBarred(t: Table, jobs: seq<Job>, now: int) {
    forall k :: 0 <= k < |jobs| ==> Barred(t, jobs[k].id, now)
  }

  lemma StepKeepsAllBarred(t: Table, events: seq<TableEvent>, jobs: seq<Job>, now: int, maxAttempts: int)
    requires AllBarred(t, jobs, now) && forall i :: 0 <= i < |events| ==> Gentle(events[i], now)
    ensures AllBarred(RunTable(t, events, maxAttempts), jobs, now)
  {
    forall k | 0 <= k < |jobs| ensures Barred(RunTable(t, events, maxAttempts), jobs[k].id, now) {
      GentleRunKeepsBarred(t, events, jobs[k].id, now, maxAttempts);
    }
  }

  lemma ClaimKeepsAllBarred(t: Table, jobs: seq<Job>, job: Job, now: int, lease: int, maxAttempts: int)
    requires t.rows.Keys <= t.used && AllBarred(t, jobs, now) && Distinct(jobs) && lease > 0
    requires Claimable(t, job.id, now)
    ensures AllBarred(NextTable(t, OnRow(job.id, Outbox.Claim(now, lease)), maxAttempts), jobs + [job], now)
    ensures Distinct(jobs + [job])
  {
    Outbox.ClaimBars(t.rows[job.id].delivery, now, lease, maxAttempts);
    forall k | 0 <= k < |jobs| ensures jobs[k].id != job.id { assert Barred(t, jobs[k].id, now); }
  }

  /** A dry run counts its claims and nothing else. */
  function DryStats(jobs: seq<Job>): Stats { Stats(Channel(|jobs|, 0, 0, 0), Channel(EmailJobs(jobs), 0, 0, 0)) }

  /** Up to here the run has room: merged and running deliveries never exceed the batch by a full set of workers. */
  predicate HasRoom(stats: Stats, inFlight: set<nat>, batchSize: int, workers: int) {
    |inFlight| <= workers && stats.total.processed + |inFlight| <= Outbox.Max(0, batchSize + workers - 1)
  }

  lemma DistinctFits(jobs: seq<Job>, used: set<nat>)
    requires Distinct(jobs) && forall k :: 0 <= k < |jobs| ==> jobs[k].id in used
    ensures |jobs| <= |used|
    decreases |jobs|
  {
    if jobs != [] {
      var last := |jobs| - 1;
      DistinctFits(jobs[..last], used - {jobs[last].id});
    }
  }

  lemma DoneIsSmaller(done: set<nat>, inFlight: set<nat>)
    ensures |inFlight - done * inFlight| == |inFlight| - |done * inFlight|
  {
    assert inFlight == (inFlight - done * inFlight) + done * inFlight;
  }

  lemma {:induction false} TallyAtMost(jobs: seq<Job>, merged: set<nat>, done: set<nat>, after: nat -> After)
    requires merged !! done
    ensures StatsOf(jobs, merged + done, after).total.processed <= StatsOf(jobs, merged, after).total.processed + |done|
    decreases |done|
  {
    if done == {} {
      assert merged + done == merged;
    } else {
      var k :| k in done;
      TallyAtMost(jobs, merged, done - {k}, after);
      TallyAdd(jobs, merged + (done - {k}), k, after, Processed, false);
      assert merged + done == merged + (done - {k}) + {k};
    }
  }

  lemma TallyAtLeast(jobs: seq<Job>, merged: set<nat>, done: set<nat>, after: nat -> After)
    ensures StatsOf(jobs, merged + done, after).total.processed >= StatsOf(jobs, merged, after).total.processed
  {
    SubsetSize(Tallied(jobs, merged, after, Processed, false), Tallied(jobs, merged + done, after, Processed, false));
  }

  /** What a run that delivers keeps true: figures as the merged claims call for, and no claim forgotten. */
  ghost predicate Accounted(stats: Stats, jobs: seq<Job>, merged: set<nat>, inFlight: set<nat>, after: nat -> After,
                      batchSize: int, workers: int) {
    OpenJobs(jobs) && Split(jobs, merged, inFlight) && stats == StatsOf(jobs, merged, after)
    && HasRoom(stats, inFlight, batchSize, workers) && (workers == 1 ==> inFlight == {})
  }

  lemma SubmitKeepsAccounted(stats: Stats, jobs: seq<Job>, job: Job, merged: set<nat>, inFlight: set<nat>,
                             after: nat -> After, batchSize: int, workers: int)
    requires Accounted(stats, jobs, merged, inFlight, after, batchSize, workers) && workers > 1
    requires stats.total.processed < batchSize && |inFlight| < workers && OpenJobs([job])
    ensures Accounted(stats, jobs + [job], merged, inFlight + {|jobs|}, after, batchSize, workers)
  {
    StatsExtend(jobs, job, merged, after);
    assert job == [job][0];
    assert |inFlight + {|jobs|}| == |inFlight| + 1;
  }

  lemma DeliverKeepsAccounted(stats: Stats, jobs: seq<Job>, job: Job, merged: set<nat>, after: nat -> After,
                              batchSize: int)
    requires Accounted(stats, jobs, merged, {}, after, batchSize, 1) && stats.total.processed < batchSize &&
      OpenJobs([job])
    ensures Accounted(Merge(stats, SummarizeDeliveryResult(job.before, after(|jobs|), job.kind)),
                      jobs + [job], merged + {|jobs|}, {}, after, batchSize, 1)
  {
    assert job == [job][0];
    SplitNew(jobs, job, merged);
    MergeNew(stats, jobs, job, merged, after);
    RoomForOne(stats, SummarizeDeliveryResult(job.before, after(|jobs|), job.kind), batchSize);
  }

  lemma SplitNew(jobs: seq<Job>, job: Job, merged: set<nat>)
    requires Split(jobs, merged, {})
    ensures Split(jobs + [job], merged + {|jobs|}, {}) && |jobs| !in merged && forall k :: k in merged ==> k < |jobs|
  {
  }

  lemma MergeNew(stats: Stats, jobs: seq<Job>, job: Job, merged: set<nat>, after: nat -> After)
    requires OpenJobs(jobs + [job]) && |jobs| !in merged && forall k :: k in merged ==> k < |jobs|
    requires stats == StatsOf(jobs, merged, after)
    ensures Merge(stats, SummarizeDeliveryResult(job.before, after(|jobs|), job.kind)) ==
      StatsOf(jobs + [job], merged + {|jobs|}, after)
  {
    StatsExtend(jobs, job, merged, after);
    assert (jobs + [job])[|jobs|] == job;
    MergeOne(jobs + [job], merged, |jobs|, after);
  }

  lemma RoomForOne(stats: Stats, delta: Stats, batchSize: int)
    requires HasRoom(stats, {}, batchSize, 1) && stats.total.processed < batchSize && delta.total.processed <= 1
    ensures HasRoom(Merge(stats, delta), {}, batchSize, 1)
  {
  }

  lemma CollectingKeepsAccounted(stats: Stats, jobs: seq<Job>, merged: set<nat>, inFlight: set<nat>, done: set<nat>,
                                 after: nat -> After, batchSize: int, workers: int)
    requires Accounted(stats, jobs, merged, inFlight, after, batchSize, workers) && done <= inFlight
    ensures Accounted(StatsOf(jobs, merged + done, after), jobs, merged + done, inFlight - done, after, batchSize,
      workers)
  {
    TallyAtMost(jobs, merged, done, after);
    DoneIsSmaller(done, inFlight);
    assert done * inFlight == done;
  }

  /** Waits for workers and merges those that are ready. */
  method Collect(stats: Stats, jobs: seq<Job>, ghost merged: set<nat>, inFlight: set<nat>, ready: set<nat>,
                 after: nat -> After, ghost batchSize: int, ghost workers: int)
    returns (r: Stats, ghost merged': set<nat>, inFlight': set<nat>)
    requires Accounted(stats, jobs, merged, inFlight, after, batchSize, workers)
    ensures Accounted(r, jobs, merged', inFlight', after, batchSize, workers)
    ensures inFlight' == inFlight - ready && merged' == merged + ready * inFlight
    ensures inFlight' == inFlight || |inFlight'| < |inFlight|
    ensures ready * inFlight != {} ==> |inFlight'| < |inFlight|
    ensures r.total.processed >= stats.total.processed
  {
    var done := ready * inFlight;
    r := MergeDone(stats, jobs, merged, done, after);
    merged' := merged + done;
    inFlight' := inFlight - done;
    TallyAtLeast(jobs, merged, done, after);
    CollectingKeepsAccounted(stats, jobs, merged, inFlight, done, after, batchSize, workers);
    DoneIsSmaller(ready, inFlight);
  }

  /** Runs a claimed row: through the pool, or at once when there is only one worker. */
  method Submit(stats: Stats, jobs: seq<Job>, job: Job, ghost merged: set<nat>, inFlight: set<nat>, after: nat -> After,
                ghost batchSize: int, workers: int)
    returns (r: Stats, ghost merged': set<nat>, inFlight': set<nat>)
    requires Accounted(stats, jobs, merged, inFlight, after, batchSize, workers) && workers >= 1
    requires stats.total.processed < batchSize && |inFlight| < workers && OpenJobs([job])
    ensures Accounted(r, jobs + [job], merged', inFlight', after, batchSize, workers)
    ensures if workers == 1
      then merged' == merged + {|jobs|} && inFlight' == {}
      else merged' == merged && inFlight' == inFlight + {|jobs|}
  {
    if workers == 1 {
      DeliverKeepsAccounted(stats, jobs, job, merged, after, batchSize);
      return Merge(stats, SummarizeDeliveryResult(job.before, after(|jobs|), job.kind)), merged + {|jobs|}, {};
    }
    SubmitKeepsAccounted(stats, jobs, job, merged, inFlight, after, batchSize, workers);
    return stats, merged, inFlight + {|jobs|};
  }

  /** A claim followed by what makes the next claim another row: the lease, which a dry run gives back. */
  predicate Exclusive(t: Table, jobs: seq<Job>, now: int) { AllBarred(t, jobs, now) && Distinct(jobs) }

  predicate Known(t: Table, jobs: seq<Job>) {
    t.rows.Keys <= t.used && OpenJobs(jobs) && forall k :: 0 <= k < |jobs| ==> jobs[k].id in t.used
  }

  lemma StepKeepsKnown(t: Table, events: seq<TableEvent>, jobs: seq<Job>, maxAttempts: int)
    requires Known(t, jobs)
    ensures Known(RunTable(t, events, maxAttempts), jobs)
  {
    RunKeepsUsed(t, events, maxAttempts);
  }

  /** A dry run has claimed and given back, and nothing else. */
  predicate DryAccounted(stats: Stats, jobs: seq<Job>, inFlight: set<nat>, batchSize: int) {
    inFlight == {} && stats == DryStats(jobs) && |jobs| <= Outbox.Max(0, batchSize)
  }

  /** What a dry run does with a claim. */
  method CountClaim(stats: Stats, jobs: seq<Job>, job: Job) returns (r: Stats)
    requires stats == DryStats(jobs)
    ensures r == DryStats(jobs + [job])
  {
    EmailJobsExtend(jobs, job);
    r := stats.(total := stats.total.(processed := stats.total.processed + 1));
    if job.kind.Email? { r := r.(email := r.email.(processed := r.email.processed + 1)); }
  }

  ghost predicate Progress(dryRun: bool, stats: Stats, jobs: seq<Job>, merged: set<nat>, inFlight: set<nat>,
                           after: nat -> After, batchSize: int, workers: int) {
    if dryRun then DryAccounted(stats, jobs, inFlight, batchSize)
    else Accounted(stats, jobs, merged, inFlight, after, batchSize, workers)
  }

  /** What a claim is for: on a dry run to be counted, else to be delivered. */
  method Handle(dryRun: bool, stats: Stats, jobs: seq<Job>, job: Job, ghost merged: set<nat>, inFlight: set<nat>,
                after: nat -> After, ghost batchSize: int, workers: int)
    returns (r: Stats, ghost merged': set<nat>, inFlight': set<nat>)
    requires Progress(dryRun, stats, jobs, merged, inFlight, after, batchSize, workers) && workers >= 1
    requires stats.total.processed < batchSize && |inFlight| < workers && OpenJobs([job])
    ensures Progress(dryRun, r, jobs + [job], merged', inFlight', after, batchSize, workers)
  {
    if dryRun {
      merged', inFlight' := merged, inFlight;
      r := CountClaim(stats, jobs, job);
    } else {
      r, merged', inFlight' := Submit(stats, jobs, job, merged, inFlight, after, batchSize, workers);
    }
  }

  lemma ClaimKeepsKnown(t: Table, jobs: seq<Job>, job: Job, dryRun: bool, now: int, lease: int, maxAttempts: int)
    requires Known(t, jobs) && job.id in t.rows && OpenJobs([job])
    ensures var c := NextTable(t, OnRow(job.id, Outbox.Claim(now, lease)), maxAttempts);
            Known(if dryRun then NextTable(c, OnRow(job.id, Outbox.Unlock), maxAttempts) else c, jobs + [job])
  {
    assert job == [job][0];
  }

  lemma {:induction false} NoNewRowsKeepsUsed(t: Table, events: seq<TableEvent>, maxAttempts: int)
    requires forall i :: 0 <= i < |events| ==> !events[i].Create?
    ensures RunTable(t, events, maxAttempts).used == t.used
    decreases |events|
  {
    if events != [] { NoNewRowsKeepsUsed(NextTable(t, events[0], maxAttempts), events[1..], maxAttempts); }
  }

  /** The claims so far are at most the rows there are. */
  lemma ExclusiveFits(t: Table, jobs: seq<Job>, now: int)
    requires Known(t, jobs) && Exclusive(t, jobs, now)
    ensures |jobs| <= |t.used|
  {
    DistinctFits(jobs, t.used);
  }

  // ------------------------------------------- the figures and the table

  const NO_ROWS := Table(map[], {})

  predicate SoundTable(t: Table, maxAttempts: int) {
    t.rows.Keys <= t.used && forall id :: id in t.rows ==> Outbox.Sound(t.rows[id].delivery, maxAttempts)
  }

  lemma NextKeepsSoundTable(t: Table, e: TableEvent, maxAttempts: int)
    requires SoundTable(t, maxAttempts)
    ensures SoundTable(NextTable(t, e, maxAttempts), maxAttempts)
  {
    if e.OnRow? && e.id in t.rows { Outbox.NextKeepsSound(t.rows[e.id].delivery, e.event, maxAttempts); }
  }

  lemma {:induction false} RunKeepsSoundTable(t: Table, events: seq<TableEvent>, maxAttempts: int)
    requires SoundTable(t, maxAttempts)
    ensures SoundTable(RunTable(t, events, maxAttempts), maxAttempts)
    decreases |events|
  {
    if events != [] {
      NextKeepsSoundTable(t, events[0], maxAttempts);
      RunKeepsSoundTable(NextTable(t, events[0], maxAttempts), events[1..], maxAttempts);
    }
  }

  /** Whatever happened before, requeues and dry runs included, a run finds a sound table. */
  lemma EveryTableIsSound(events: seq<TableEvent>, maxAttempts: int)
    ensures SoundTable(RunTable(NO_ROWS, events, maxAttempts), maxAttempts)
  {
    RunKeepsSoundTable(NO_ROWS, events, maxAttempts);
  }

  /** The claim made at a step, if any; a dry run gives it back. */
  function ClaimEvents(claim: Option<nat>, dryRun: bool, now: int, lease: int): seq<TableEvent> {
    if claim.None? then []
    else if dryRun then [OnRow(claim.value, Outbox.Claim(now, lease)), OnRow(claim.value, Outbox.Unlock)]
    else [OnRow(claim.value, Outbox.Claim(now, lease))]
  }

  /** All that happens to the table during a run: at each step a claim or none, then the rest of the system. */
  function Log(w: World, claims: seq<Option<nat>>, dryRun: bool, now: int, lease: int): seq<TableEvent>
    decreases |claims|
  {
    if claims == [] then [] else
      var n := |claims| - 1;
      Log(w, claims[..n], dryRun, now, lease) + (ClaimEvents(claims[n], dryRun, now, lease) + w.events(n))
  }

  /** The claims made, in order. */
  function Claimed(claims: seq<Option<nat>>): seq<nat>
    decreases |claims|
  {
    if claims == [] then [] else
      var n := |claims| - 1;
      Claimed(claims[..n]) + if claims[n].Some? then [claims[n].value] else []
  }

  function Ids(jobs: seq<Job>): seq<nat> { seq(|jobs|, k requires 0 <= k < |jobs| => jobs[k].id) }

  /** The table is the first one after the log, and the jobs are its claims. */
  ghost predicate Told(t0: Table, t: Table, w: World, claims: seq<Option<nat>>, jobs: seq<Job>, dryRun: bool, now: int,
                       lease: int, maxAttempts: int) {
    t == RunTable(t0, Log(w, claims, dryRun, now, lease), maxAttempts) && Claimed(claims) == Ids(jobs)
  }

  lemma ToldNext(t0: Table, t: Table, w: World, claims: seq<Option<nat>>, claim: Option<nat>, jobs: seq<Job>,
                 more: seq<Job>, dryRun: bool, now: int, lease: int, maxAttempts: int)
    requires Told(t0, t, w, claims, jobs, dryRun, now, lease, maxAttempts)
    requires Ids(more) == Ids(jobs) + if claim.Some? then [claim.value] else []
    ensures var claimed := RunTable(t, ClaimEvents(claim, dryRun, now, lease), maxAttempts);
            Told(t0, RunTable(claimed, w.events(|claims|), maxAttempts), w, claims + [claim], more, dryRun, now, lease,
              maxAttempts)
  {
    var n, all := |claims|, claims + [claim];
    assert all[..n] == claims && all[n] == claim;
    RunConcat(t, ClaimEvents(claim, dryRun, now, lease), w.events(n), maxAttempts);
    RunConcat(t0, Log(w, claims, dryRun, now, lease), ClaimEvents(claim, dryRun, now, lease) + w.events(n),
      maxAttempts);
  }

  lemma IdsSnoc(jobs: seq<Job>, job: Job)
    ensures Ids(jobs + [job]) == Ids(jobs) + [job.id]
  {
  }

  lemma {:induction false} LogHasNoRequeue(w: World, claims: seq<Option<nat>>, now: int, lease: int)
    requires GentleWorld(w, now)
    ensures NoRequeue(Log(w, claims, false, now, lease))
    decreases |claims|
  {
    if claims != [] { LogHasNoRequeue(w, claims[..|claims| - 1], now, lease); }
  }

  /** What a worker finds when it looks at a row. */
  function StatusAt(t: Table, id: nat): After {
    if id in t.rows then Some(t.rows[id].delivery.row.status) else None
  }

  predicate IsRequeue(e: TableEvent) { e.OnRow? && e.event.Requeue? }

  predicate NoRequeue(events: seq<TableEvent>) { forall i :: 0 <= i < |events| ==> !IsRequeue(events[i]) }

  /** A row that is gone stays gone, and a closed one keeps its status until it goes. */
  predicate Stays(a: After, b: After) {
    b.None? || (a.Some? && (a.value.Delivered? || a.value.Dead? ==> b == a))
  }

  lemma NextStays(t: Table, e: TableEvent, id: nat, maxAttempts: int)
    requires SoundTable(t, maxAttempts) && id in t.used && !IsRequeue(e)
    ensures var t' := NextTable(t, e, maxAttempts); id in t'.used && Stays(StatusAt(t, id), StatusAt(t', id))
  {
    if id in t.rows { assert Outbox.Sound(t.rows[id].delivery, maxAttempts); }
  }

  lemma {:induction false} RunStays(t: Table, events: seq<TableEvent>, id: nat, maxAttempts: int)
    requires SoundTable(t, maxAttempts) && id in t.used && NoRequeue(events)
    ensures Stays(StatusAt(t, id), StatusAt(RunTable(t, events, maxAttempts), id))
    decreases |events|
  {
    if events != [] {
      var t' := NextTable(t, events[0], maxAttempts);
      NextStays(t, events[0], id, maxAttempts);
      NextKeepsSoundTable(t, events[0], maxAttempts);
      RunStays(t', events[1..], id, maxAttempts);
    }
  }

  lemma {:induction false} RunConcat(t: Table, a: seq<TableEvent>, b: seq<TableEvent>, maxAttempts: int)
    ensures RunTable(t, a + b, maxAttempts) == RunTable(RunTable(t, a, maxAttempts), b, maxAttempts)
    decreases |a|
  {
    if a == [] {
      assert a + b == b;
    } else {
      assert (a + b)[0] == a[0] && (a + b)[1..] == a[1..] + b;
      RunConcat(NextTable(t, a[0], maxAttempts), a[1..], b, maxAttempts);
    }
  }

  /** A status read at any moment of the run, if it is a closed one, is there at the end or the row is gone. */
  lemma ReadStays(t0: Table, log: seq<TableEvent>, m: nat, id: nat, maxAttempts: int)
    requires SoundTable(t0, maxAttempts) && NoRequeue(log) && m <= |log|
    requires StatusAt(RunTable(t0, log[..m], maxAttempts), id).Some?
    ensures Stays(StatusAt(RunTable(t0, log[..m], maxAttempts), id), StatusAt(RunTable(t0, log, maxAttempts), id))
  {
    assert log == log[..m] + log[m..];
    RunConcat(t0, log[..m], log[m..], maxAttempts);
    RunKeepsSoundTable(t0, log[..m], maxAttempts);
    RunStays(RunTable(t0, log[..m], maxAttempts), log[m..], id, maxAttempts);
  }

  /** What the workers of the merged claims brought back was read from the table at some moment of the run. */
  ghost predicate Observed(t0: Table, log: seq<TableEvent>, jobs: seq<Job>, merged: set<nat>, after: nat -> After,
                           maxAttempts: int) {
    forall k :: k in merged && k < |jobs| ==>
      exists m: nat :: m <= |log| && after(k) == StatusAt(RunTable(t0, log[..m], maxAttempts), jobs[k].id)
  }

  /** The claimed rows that are as `f` says at the end, or gone. */
  function EndedAs(jobs: seq<Job>, t: Table, f: Figure, emailOnly: bool): set<nat> {
    IdsOf(jobs, EndedJobs(jobs, t, f, emailOnly))
  }

  function EndedJobs(jobs: seq<Job>, t: Table, f: Figure, emailOnly: bool): set<nat> {
    set k: nat | k < |jobs| && (emailOnly ==> jobs[k].kind.Email?) && GoneOrShows(StatusAt(t, jobs[k].id), f)
  }

  predicate GoneOrShows(a: After, f: Figure) { a.None? || Shows(a, f) }

  function IdsOf(jobs: seq<Job>, ks: set<nat>): set<nat> { set k | k in ks && k < |jobs| :: jobs[k].id }

  lemma {:induction false} IdsCount(jobs: seq<Job>, ks: set<nat>)
    requires Distinct(jobs) && forall k :: k in ks ==> k < |jobs|
    ensures |IdsOf(jobs, ks)| == |ks|
    decreases |ks|
  {
    if ks != {} {
      var k :| k in ks;
      var rest := ks - {k};
      IdsCount(jobs, rest);
      forall id ensures id in IdsOf(jobs, ks) <==> id in IdsOf(jobs, rest) || id == jobs[k].id {}
      assert IdsOf(jobs, ks) == IdsOf(jobs, rest) + {jobs[k].id};
      assert jobs[k].id !in IdsOf(jobs, rest);
    }
  }

  /** No delivered and no dead row is counted that is not there at the end, unless it was deleted since. */
  ghost predicate Borne(stats: Stats, jobs: seq<Job>, t: Table) {
    stats.total.delivered <= |EndedAs(jobs, t, Delivered, false)|
    && stats.total.dead <= |EndedAs(jobs, t, Dead, false)|
    && stats.email.delivered <= |EndedAs(jobs, t, Delivered, true)|
    && stats.email.dead <= |EndedAs(jobs, t, Dead, true)|
  }

  lemma FigureIsBorne(t0: Table, log: seq<TableEvent>, jobs: seq<Job>, merged: set<nat>, after: nat -> After, f: Figure,
                      emailOnly: bool, maxAttempts: int)
    requires SoundTable(t0, maxAttempts) && NoRequeue(log) && Distinct(jobs) && (f == Delivered || f == Dead)
    requires Observed(t0, log, jobs, merged, after, maxAttempts) && forall k :: k in merged ==> k < |jobs|
    ensures Tally(jobs, merged, after, f, emailOnly)
         <= |EndedAs(jobs, RunTable(t0, log, maxAttempts), f, emailOnly)|
  {
    var t := RunTable(t0, log, maxAttempts);
    var told, ended := Tallied(jobs, merged, after, f, emailOnly), EndedJobs(jobs, t, f, emailOnly);
    forall k | k in told ensures k in ended {
      var m: nat :| m <= |log| && after(k) == StatusAt(RunTable(t0, log[..m], maxAttempts), jobs[k].id);
      ReadStays(t0, log, m, jobs[k].id, maxAttempts);
    }
    IdsCount(jobs, ended);
    SubsetSize(told, ended);
  }

  /** The figures of a run are borne out by the table it leaves. */
  lemma FiguresAreBorne(t0: Table, log: seq<TableEvent>, jobs: seq<Job>, merged: set<nat>, after: nat -> After,
                        maxAttempts: int)
    requires SoundTable(t0, maxAttempts) && NoRequeue(log) && Distinct(jobs)
    requires Observed(t0, log, jobs, merged, after, maxAttempts) && forall k :: k in merged ==> k < |jobs|
    ensures Borne(StatsOf(jobs, merged, after), jobs, RunTable(t0, log, maxAttempts))
  {
    FigureIsBorne(t0, log, jobs, merged, after, Delivered, false, maxAttempts);
    FigureIsBorne(t0, log, jobs, merged, after, Dead, false, maxAttempts);
    FigureIsBorne(t0, log, jobs, merged, after, Delivered, true, maxAttempts);
    FigureIsBorne(t0, log, jobs, merged, after, Dead, true, maxAttempts);
  }

  // ----------------------------------------------------------- the claim loop

  /** Claims of a run that delivers are exclusive where the rest of the system is gentle. */
  ghost predicate Excludes(w: World, dryRun: bool, now: int, lease: int) { !dryRun && lease > 0 && GentleWorld(w, now) }

  /** What the run keeps about the table. */
  ghost predicate Kept(t0: Table, t: Table, w: World, claims: seq<Option<nat>>, jobs: seq<Job>, dryRun: bool, now: int,
                       lease: int, maxAttempts: int) {
    Known(t, jobs) && (NoNewRows(w) ==> t.used == t0.used)
    && (Excludes(w, dryRun, now, lease) ==> Exclusive(t, jobs, now))
    && Told(t0, t, w, claims, jobs, dryRun, now, lease, maxAttempts)
  }

  /** What the rest of the system does between two steps of the loop. */
  method Meanwhile(ghost t0: Table, t: Table, w: World, n: nat, ghost claims: seq<Option<nat>>, jobs: seq<Job>,
                   dryRun: bool, now: int, lease: int, maxAttempts: int)
    returns (t': Table)
    requires Kept(t0, t, w, claims, jobs, dryRun, now, lease, maxAttempts) && n == |claims|
    ensures Kept(t0, t', w, claims + [None], jobs, dryRun, now, lease, maxAttempts)
  {
    StepKeepsKnown(t, w.events(n), jobs, maxAttempts);
    if Excludes(w, dryRun, now, lease) { StepKeepsAllBarred(t, w.events(n), jobs, now, maxAttempts); }
    if NoNewRows(w) { NoNewRowsKeepsUsed(t, w.events(n), maxAttempts); }
    ToldNext(t0, t, w, claims, None, jobs, jobs, dryRun, now, lease, maxAttempts);
    t' := RunTable(t, w.events(n), maxAttempts);
  }

  /** Claims a row if there is one, and lets the rest of the system go on, the worker of the claim included. */
  method ClaimStep(ghost t0: Table, t: Table, w: World, n: nat, ghost claims: seq<Option<nat>>, jobs: seq<Job>,
                   dryRun: bool, now: int, lease: int, maxAttempts: int)
    returns (job: Option<Job>, t': Table)
    requires Kept(t0, t, w, claims, jobs, dryRun, now, lease, maxAttempts) && n == |claims|
    ensures job.Some? <==> w.pick(n).Some? && Claimable(t, w.pick(n).value, now)
    ensures job.Some? ==> var (id, kind) := (job.value.id, job.value.kind);
              id == w.pick(n).value && kind == t.rows[id].kind && OpenJobs([job.value])
    ensures if job.None? then t' == t
      else Kept(t0, t', w, claims + [Some(job.value.id)], jobs + [job.value], dryRun, now, lease, maxAttempts)
  {
    job, t' := ClaimNext(t, w.pick(n), now, lease, maxAttempts);
    if job.Some? {
      ghost var more := jobs + [job.value];
      ClaimKeepsKnown(t, jobs, job.value, dryRun, now, lease, maxAttempts);
      if Excludes(w, dryRun, now, lease) { ClaimKeepsAllBarred(t, jobs, job.value, now, lease, maxAttempts); }
      if dryRun { t' := NextTable(t', OnRow(job.value.id, Outbox.Unlock), maxAttempts); }
      IdsSnoc(jobs, job.value);
      ClaimRuns(t, job.value.id, dryRun, now, lease, maxAttempts);
      ToldNext(t0, t, w, claims, Some(job.value.id), jobs, more, dryRun, now, lease, maxAttempts);
      StepKeepsKnown(t', w.events(n), more, maxAttempts);
      if Excludes(w, dryRun, now, lease) { StepKeepsAllBarred(t', w.events(n), more, now, maxAttempts); }
      if NoNewRows(w) { NoNewRowsKeepsUsed(t', w.events(n), maxAttempts); }
      t' := RunTable(t', w.events(n), maxAttempts);
    }
  }

  /** A claim leases its row and changes nothing else; on a dry run the lease is given back. */
  lemma ClaimLeasesOnly(t: Table, id: nat, dryRun: bool, now: int, lease: int, maxAttempts: int)
    requires Claimable(t, id, now)
    ensures var z := RunTable(t, ClaimEvents(Some(id), dryRun, now, lease), maxAttempts);
            var row := t.rows[id].delivery.row;
            var leased := row.(lockedUntil := if dryRun then None else Some(now + lease));
            z == t.(rows := t.rows[id := t.rows[id].(delivery := t.rows[id].delivery.(row := leased))])
  {
    ClaimRuns(t, id, dryRun, now, lease, maxAttempts);
  }

  lemma ClaimRuns(t: Table, id: nat, dryRun: bool, now: int, lease: int, maxAttempts: int)
    ensures var claimed := NextTable(t, OnRow(id, Outbox.Claim(now, lease)), maxAttempts);
            RunTable(t, ClaimEvents(Some(id), dryRun, now, lease), maxAttempts)
            == if dryRun then NextTable(claimed, OnRow(id, Outbox.Unlock), maxAttempts) else claimed
  {
    var c, u := OnRow(id, Outbox.Claim(now, lease)), OnRow(id, Outbox.Unlock);
    var claimed := NextTable(t, c, maxAttempts);
    assert [c, u][1..] == [u] && [u][1..] == [] && [c][1..] == [];
    assert RunTable(claimed, [u], maxAttempts) == NextTable(claimed, u, maxAttempts);
  }

  /** What makes the loop end: the clock passes, and waiting brings results. */
  lemma TimePasses(w: World, n: nat, left: set<nat>)
    ensures Passing(w.clock) ==> w.clock(n) < w.clock(n + 1) < w.clock(n + 2)
    ensures Responsive(w) && left != {} ==> w.done(n + 1, left) * left != {}
  {
  }

  /** A run in a closed world has claimed at most the rows there were. */
  lemma KeptFits(t0: Table, t: Table, w: World, claims: seq<Option<nat>>, jobs: seq<Job>, dryRun: bool, now: int,
                 lease: int, maxAttempts: int)
    requires Kept(t0, t, w, claims, jobs, dryRun, now, lease, maxAttempts)
    ensures !dryRun && lease > 0 && Settled(w, now) ==> |jobs| <= |t0.used|
  {
    if Excludes(w, dryRun, now, lease) { ExclusiveFits(t, jobs, now); }
  }

  /**
   Where the table was sound and each worker brought back what it read in its row at some moment of
   the run, the table at the end bears the figures out.
   */
  ghost predicate TrueFigures(t0: Table, t: Table, w: World, claims: seq<Option<nat>>, jobs: seq<Job>, merged: set<nat>,
                              stats: Stats, dryRun: bool, now: int, lease: int, maxAttempts: int) {
    var log := Log(w, claims, dryRun, now, lease);
    Excludes(w, dryRun, now, lease) && SoundTable(t0, maxAttempts)
    && Observed(t0, log, jobs, merged, w.after, maxAttempts)
    ==> Borne(stats, jobs, t)
  }

  lemma KeptAtEnd(t0: Table, t: Table, w: World, claims: seq<Option<nat>>, jobs: seq<Job>, merged: set<nat>,
                  left: set<nat>, stats: Stats, batchSize: int, workers: int, dryRun: bool, now: int, lease: int,
                  maxAttempts: int)
    requires Kept(t0, t, w, claims, jobs, dryRun, now, lease, maxAttempts)
    requires Progress(dryRun, stats, jobs, merged, left, w.after, batchSize, workers)
    ensures Known(t, jobs) && Told(t0, t, w, claims, jobs, dryRun, now, lease, maxAttempts)
    ensures Excludes(w, dryRun, now, lease) ==> Distinct(jobs) && |jobs| <= |t.used|
    ensures TrueFigures(t0, t, w, claims, jobs, merged, stats, dryRun, now, lease, maxAttempts)
    ensures NoNewRows(w) ==> t.used == t0.used
  {
    if Excludes(w, dryRun, now, lease) { ExclusiveFits(t, jobs, now); }
    var log := Log(w, claims, dryRun, now, lease);
    if Excludes(w, dryRun, now, lease) && SoundTable(t0, maxAttempts)
      && Observed(t0, log, jobs, merged, w.after, maxAttempts)
    {
      LogHasNoRequeue(w, claims, now, lease);
      FiguresAreBorne(t0, log, jobs, merged, w.after, maxAttempts);
    }
  }

  /** One wait for running workers, while the rest of the system goes on. */
  method WaitOnce(ghost t0: Table, t: Table, w: World, n: nat, ghost claims: seq<Option<nat>>, stats: Stats,
                  jobs: seq<Job>, ghost merged: set<nat>, inFlight: set<nat>, ghost batchSize: int, ghost workers: int,
                  dryRun: bool, now: int, lease: int, maxAttempts: int)
    returns (t': Table, r: Stats, ghost merged': set<nat>, left: set<nat>, ghost claims': seq<Option<nat>>)
    requires n == |claims| && Kept(t0, t, w, claims, jobs, dryRun, now, lease, maxAttempts) && inFlight != {}
    requires Progress(dryRun, stats, jobs, merged, inFlight, w.after, batchSize, workers)
    ensures Kept(t0, t', w, claims', jobs, dryRun, now, lease, maxAttempts) && claims <= claims' && |claims'| == n + 1
    ensures left <= inFlight && r.total.processed >= stats.total.processed
    ensures if left == inFlight then w.done(n + 1, left) * left == {} else |left| < |inFlight|
    ensures Progress(dryRun, r, jobs, merged', left, w.after, batchSize, workers)
  {
    t' := Meanwhile(t0, t, w, n, claims, jobs, dryRun, now, lease, maxAttempts);
    claims' := claims + [None];
    r, merged', left := Collect(stats, jobs, merged, inFlight, w.done(n + 1, inFlight), w.after, batchSize, workers);
  }

  /** The last wait for running workers: until the deadline, or until none of them is done. */
  method WaitForRest(ghost t0: Table, t: Table, w: World, n: nat, ghost claims: seq<Option<nat>>, stats: Stats,
                     jobs: seq<Job>, ghost merged: set<nat>, inFlight: set<nat>, deadline: int, ghost batchSize: int,
                     ghost workers: int, dryRun: bool, now: int, lease: int, maxAttempts: int)
    returns (t': Table, r: Stats, ghost merged': set<nat>, left: set<nat>, ghost claims': seq<Option<nat>>)
    requires n == |claims| && Kept(t0, t, w, claims, jobs, dryRun, now, lease, maxAttempts)
    requires Progress(dryRun, stats, jobs, merged, inFlight, w.after, batchSize, workers)
    ensures Kept(t0, t', w, claims', jobs, dryRun, now, lease, maxAttempts) && left <= inFlight && claims <= claims'
    ensures inFlight == {} ==> t' == t && claims' == claims
    ensures left == {} || w.clock(|claims'|) >= deadline || w.done(|claims'|, left) * left == {}
    ensures r.total.processed >= stats.total.processed
    ensures Progress(dryRun, r, jobs, merged', left, w.after, batchSize, workers)
  {
    var i, waiting := n, true;
    t', r, merged', left, claims' := t, stats, merged, inFlight, claims;
    while waiting && left != {} && w.clock(i) < deadline
      invariant i == |claims'| && Kept(t0, t', w, claims', jobs, dryRun, now, lease, maxAttempts)
      invariant Progress(dryRun, r, jobs, merged', left, w.after, batchSize, workers) && left <= inFlight
      invariant claims <= claims' && (inFlight == {} ==> t' == t && claims' == claims)
      invariant r.total.processed >= stats.total.processed && (!waiting ==> w.done(i, left) * left == {})
      decreases waiting, |left|
    {
      var running := left;
      t', r, merged', left, claims' := WaitOnce(t0, t', w, i, claims', r, jobs, merged', left, batchSize, workers,
        dryRun, now, lease, maxAttempts);
      i, waiting := i + 1, left != running;
    }
  }

  // -------------------------------------------------------- why a run ends

  /** The claim of this step finds a row that it may claim. */
  predicate Offers(t: Table, w: World, n: nat, now: int) { w.pick(n).Some? && Claimable(t, w.pick(n).value, now) }

  /** The table after the first `m` steps. */
  function TableAt(t0: Table, w: World, claims: seq<Option<nat>>, m: nat, dryRun: bool, now: int, lease: int,
                   maxAttempts: int): Table
    requires m <= |claims|
  {
    RunTable(t0, Log(w, claims[..m], dryRun, now, lease), maxAttempts)
  }

  /** The run may leave out a claim before step `m`: all workers can be busy, or no row is offered. */
  ghost predicate MayPass(t0: Table, w: World, claims: seq<Option<nat>>, m: nat, workers: int, dryRun: bool, now: int,
                          lease: int, maxAttempts: int)
    requires m <= |claims|
  {
    |Claimed(claims[..m])| >= workers || !Offers(TableAt(t0, w, claims, m, dryRun, now, lease, maxAttempts), w, m, now)
  }

  /** Of two steps in a row one makes a claim, unless the run may pass. */
  ghost predicate Eager(t0: Table, w: World, claims: seq<Option<nat>>, ended: nat, workers: int, dryRun: bool, now: int,
                        lease: int, maxAttempts: int)
    requires ended <= |claims|
  {
    forall m: nat :: 0 < m < ended && claims[m - 1].None? && claims[m].None? ==>
      MayPass(t0, w, claims, m, workers, dryRun, now, lease, maxAttempts)
  }

  /** The next step may be without a claim, or the last one made a claim. */
  ghost predicate Ready(t0: Table, w: World, claims: seq<Option<nat>>, workers: int, dryRun: bool, now: int, lease: int,
                        maxAttempts: int) {
    claims != [] && claims[|claims| - 1].None? ==>
      MayPass(t0, w, claims, |claims|, workers, dryRun, now, lease, maxAttempts)
  }

  lemma PassStays(t0: Table, w: World, claims: seq<Option<nat>>, more: seq<Option<nat>>, m: nat, workers: int,
                  dryRun: bool, now: int, lease: int, maxAttempts: int)
    requires m <= |claims| && claims <= more
    ensures MayPass(t0, w, claims, m, workers, dryRun, now, lease, maxAttempts)
      <==> MayPass(t0, w, more, m, workers, dryRun, now, lease, maxAttempts)
  {
    assert more[..m] == claims[..m];
  }

  lemma EagerStays(t0: Table, w: World, claims: seq<Option<nat>>, more: seq<Option<nat>>, workers: int, dryRun: bool,
                   now: int, lease: int, maxAttempts: int)
    requires Eager(t0, w, claims, |claims|, workers, dryRun, now, lease, maxAttempts) && claims <= more
    ensures Eager(t0, w, more, |claims|, workers, dryRun, now, lease, maxAttempts)
  {
    forall m: nat | 0 < m < |claims| && more[m - 1].None? && more[m].None?
      ensures MayPass(t0, w, more, m, workers, dryRun, now, lease, maxAttempts)
    {
      PassStays(t0, w, claims, more, m, workers, dryRun, now, lease, maxAttempts);
    }
  }

  lemma EagerGrows(t0: Table, w: World, claims: seq<Option<nat>>, claim: Option<nat>, workers: int, dryRun: bool,
                   now: int, lease: int, maxAttempts: int)
    requires Eager(t0, w, claims, |claims|, workers, dryRun, now, lease, maxAttempts)
    requires claim.Some? || Ready(t0, w, claims, workers, dryRun, now, lease, maxAttempts)
    ensures Eager(t0, w, claims + [claim], |claims| + 1, workers, dryRun, now, lease, maxAttempts)
  {
    var more := claims + [claim];
    EagerStays(t0, w, claims, more, workers, dryRun, now, lease, maxAttempts);
    if claims != [] { PassStays(t0, w, claims, more, |claims|, workers, dryRun, now, lease, maxAttempts); }
  }

  /** A step that finds all workers busy, or no row, may be passed. */
  lemma PassesWhen(t0: Table, t: Table, w: World, claims: seq<Option<nat>>, jobs: seq<Job>, workers: int, dryRun: bool,
                   now: int, lease: int, maxAttempts: int)
    requires Told(t0, t, w, claims, jobs, dryRun, now, lease, maxAttempts)
    requires |jobs| >= workers || !Offers(t, w, |claims|, now)
    ensures MayPass(t0, w, claims, |claims|, workers, dryRun, now, lease, maxAttempts)
  {
    assert claims[..|claims|] == claims;
    assert |Ids(jobs)| == |jobs|;
  }

  /** What one round leaves behind. */
  ghost predicate Going(t0: Table, t: Table, w: World, claims: seq<Option<nat>>, jobs: seq<Job>, workers: int,
                        dryRun: bool, now: int, lease: int, maxAttempts: int) {
    Kept(t0, t, w, claims, jobs, dryRun, now, lease, maxAttempts)
    && Eager(t0, w, claims, |claims|, workers, dryRun, now, lease, maxAttempts)
    && Ready(t0, w, claims, workers, dryRun, now, lease, maxAttempts)
  }

  /** `Meanwhile` inside a round. */
  method Idle(ghost t0: Table, t: Table, w: World, n: nat, ghost claims: seq<Option<nat>>, jobs: seq<Job>,
              ghost workers: int, dryRun: bool, now: int, lease: int, maxAttempts: int)
    returns (t': Table)
    requires Going(t0, t, w, claims, jobs, workers, dryRun, now, lease, maxAttempts) && n == |claims|
    ensures Kept(t0, t', w, claims + [None], jobs, dryRun, now, lease, maxAttempts)
    ensures Eager(t0, w, claims + [None], n + 1, workers, dryRun, now, lease, maxAttempts)
  {
    EagerGrows(t0, w, claims, None, workers, dryRun, now, lease, maxAttempts);
    t' := Meanwhile(t0, t, w, n, claims, jobs, dryRun, now, lease, maxAttempts);
  }

  /** The claim of a round, if it finds a row. */
  method Take(ghost t0: Table, t: Table, w: World, n: nat, ghost claims: seq<Option<nat>>, jobs: seq<Job>,
              ghost workers: int, dryRun: bool, now: int, lease: int, maxAttempts: int)
    returns (job: Option<Job>, t': Table)
    requires Kept(t0, t, w, claims, jobs, dryRun, now, lease, maxAttempts) && n == |claims|
    requires Eager(t0, w, claims, n, workers, dryRun, now, lease, maxAttempts)
    ensures job.Some? <==> Offers(t, w, n, now)
    ensures job.Some? ==> OpenJobs([job.value])
    ensures if job.None? then t' == t && Going(t0, t, w, claims, jobs, workers, dryRun, now, lease, maxAttempts)
      else Going(t0, t', w, claims + [Some(job.value.id)], jobs + [job.value], workers, dryRun, now, lease, maxAttempts)
  {
    job, t' := ClaimStep(t0, t, w, n, claims, jobs, dryRun, now, lease, maxAttempts);
    if job.Some? {
      EagerGrows(t0, w, claims, Some(job.value.id), workers, dryRun, now, lease, maxAttempts);
    } else {
      PassesWhen(t0, t, w, claims, jobs, workers, dryRun, now, lease, maxAttempts);
    }
  }

  /** No more deliveries are in flight than rows were claimed. */
  lemma InFlightWasClaimed(dryRun: bool, stats: Stats, jobs: seq<Job>, merged: set<nat>, inFlight: set<nat>,
                           after: nat -> After, batchSize: int, workers: int)
    requires Progress(dryRun, stats, jobs, merged, inFlight, after, batchSize, workers)
    ensures |inFlight| <= |jobs|
  {
    CountBelow(inFlight, |jobs|);
  }

  lemma {:induction false} CountBelow(s: set<nat>, n: nat)
    requires forall k :: k in s ==> k < n
    ensures |s| <= n
    decreases n
  {
    if n == 0 {
      assert s == {};
    } else {
      CountBelow(s - {n - 1}, n - 1);
      assert s <= (s - {n - 1}) + {n - 1};
    }
  }

  /** One round of the claim loop. */
  method Round(ghost t0: Table, t: Table, w: World, n: nat, ghost claims: seq<Option<nat>>, stats: Stats,
               jobs: seq<Job>, ghost merged: set<nat>, left: set<nat>, ghost batchSize: int, workers: int, dryRun: bool,
               now: int, lease: int, maxAttempts: int)
    returns (again: bool, t': Table, n': nat, ghost claims': seq<Option<nat>>, stats': Stats, jobs': seq<Job>,
             ghost merged': set<nat>, left': set<nat>)
    requires n == |claims| && Going(t0, t, w, claims, jobs, workers, dryRun, now, lease, maxAttempts) && workers >= 1
    requires Progress(dryRun, stats, jobs, merged, left, w.after, batchSize, workers)
    requires stats.total.processed < batchSize
    ensures Going(t0, t', w, claims', jobs', workers, dryRun, now, lease, maxAttempts)
    ensures n' == |claims'| && n < n' <= n + 2
    ensures Progress(dryRun, stats', jobs', merged', left', w.after, batchSize, workers)
    ensures !again ==> left' == {} && !Offers(t', w, n', now)
    ensures |jobs'| == |jobs| + 1 || (jobs' == jobs && |left'| <= |left|)
    ensures again && jobs' == jobs ==> left != {} && (Responsive(w) ==> |left'| < |left|)
  {
    t' := Idle(t0, t, w, n, claims, jobs, workers, dryRun, now, lease, maxAttempts);
    n', claims' := n + 1, claims + [None];
    again, stats', jobs', merged', left' := true, stats, jobs, merged, left;

    if |left| >= workers {
      InFlightWasClaimed(dryRun, stats, jobs, merged, left, w.after, batchSize, workers);
      PassesWhen(t0, t', w, claims', jobs, workers, dryRun, now, lease, maxAttempts);
      stats', merged', left' := Collect(stats, jobs, merged, left, w.done(n', left), w.after, batchSize, workers);
      return;
    }
    var job;
    job, t' := Take(t0, t', w, n', claims', jobs, workers, dryRun, now, lease, maxAttempts);
    if job.None? {
      if left == {} {
        again := false;
        return;
      }
      stats', merged', left' := Collect(stats, jobs, merged, left, w.done(n', left), w.after, batchSize, workers);
      return;
    }
    stats', merged', left' := Handle(dryRun, stats, jobs, job.value, merged, left, w.after, batchSize, workers);
    n', claims', jobs' := n' + 1, claims' + [Some(job.value.id)], jobs + [job.value];
  }

  /**
   The batch is full, or the deadline was reached when the last round had ended, or there was no row to
   claim and no delivery in flight.
   */
  ghost predicate EndsFor(t: Table, w: World, claims: seq<Option<nat>>, ended: nat, stats: Stats, left: set<nat>,
                          batchSize: int, maxTicks: int, now: int) {
    stats.total.processed >= batchSize
    || w.clock(ended) >= w.clock(0) + (if maxTicks < 1 then 1 else maxTicks)
    || (left == {} && ended == |claims| && !Offers(t, w, ended, now))
  }

  /**
   Where a claimable row is offered whenever there is one, a run that ends before its deadline has
   filled its batch, or left no claimable row and no delivery in flight.
   */
  lemma EndsWhenDone(t0: Table, t: Table, w: World, claims: seq<Option<nat>>, ended: nat, jobs: seq<Job>, stats: Stats,
                     left: set<nat>, batchSize: int, maxTicks: int, dryRun: bool, now: int, lease: int,
                     maxAttempts: int)
    requires ended <= |claims| && EndsFor(t, w, claims, ended, stats, left, batchSize, maxTicks, now)
    requires Told(t0, t, w, claims, jobs, dryRun, now, lease, maxAttempts)
    requires forall m: nat, id | m <= |claims| &&
      Claimable(TableAt(t0, w, claims, m, dryRun, now, lease, maxAttempts), id, now) ::
      Offers(TableAt(t0, w, claims, m, dryRun, now, lease, maxAttempts), w, m, now)
    requires w.clock(ended) < w.clock(0) + if maxTicks < 1 then 1 else maxTicks
    ensures stats.total.processed >= batchSize || (left == {} && forall id :: !Claimable(t, id, now))
  {
    assert claims[..|claims|] == claims;
    assert TableAt(t0, w, claims, |claims|, dryRun, now, lease, maxAttempts) == t;
  }

  /**
   The claim loop. A pooled run keeps up to `workers` deliveries in flight; deliveries still in
   flight at the end (`left`) are not counted. A run that delivers never claims a row twice, and the
   delivered and dead rows it counts are so at the end, or were deleted since. It claims whenever a
   worker is free and a row is offered, and does not end without a reason. The loop ends by its
   deadline on a clock that passes; in a closed world and on a dry run it ends without one, as
   unclaimed rows and running workers, or the batch, run out.
   */
  method RetryPendingWebhooks(t0: Table, batchSize: int, maxTicks: int, concurrency: int, dryRun: bool,
                              now: int, lease: int, maxAttempts: int, w: World)
    returns (stats: Stats, jobs: seq<Job>, left: set<nat>, t: Table, ghost merged: set<nat>,
             ghost claims: seq<Option<nat>>, ghost ended: nat)
    requires t0.rows.Keys <= t0.used
    requires Passing(w.clock) || dryRun || (lease > 0 && Settled(w, now))
    ensures Known(t, jobs) && Told(t0, t, w, claims, jobs, dryRun, now, lease, maxAttempts)
    ensures Progress(dryRun, stats, jobs, merged, left, w.after, batchSize, Outbox.Max(1, concurrency))
    ensures |left| <= Outbox.Max(1, concurrency)
      && stats.total.processed + |left| <= Outbox.Max(0, batchSize + Outbox.Max(1, concurrency) - 1)
    ensures ended <= |claims| && EndsFor(t, w, claims, ended, stats, left, batchSize, maxTicks, now)
    ensures Eager(t0, w, claims, ended, Outbox.Max(1, concurrency), dryRun, now, lease, maxAttempts)
    ensures left == {} || w.clock(|claims|) >= w.clock(0) + Outbox.Max(1, maxTicks) + 1
      || w.done(|claims|, left) * left == {}
    ensures Excludes(w, dryRun, now, lease) ==> Distinct(jobs) && |jobs| <= |t.used|
    ensures TrueFigures(t0, t, w, claims, jobs, merged, stats, dryRun, now, lease, maxAttempts)
    ensures NoNewRows(w) ==> t.used == t0.used
  {
    stats, jobs, left, t, merged, claims := EMPTY, [], {}, t0, {}, [];
    var deadline := w.clock(0) + Outbox.Max(1, maxTicks);
    var workers := Outbox.Max(1, concurrency);
    var n, again := 0, true;
    ghost var settled := !dryRun && lease > 0 && Settled(w, now);

    while again && stats.total.processed < batchSize && w.clock(n) < deadline
      invariant settled ==> |jobs| <= |t0.used|
      invariant n == |claims| && Going(t0, t, w, claims, jobs, workers, dryRun, now, lease, maxAttempts)
      invariant Progress(dryRun, stats, jobs, merged, left, w.after, batchSize, workers)
      invariant !again ==> left == {} && !Offers(t, w, n, now)
      decreases again,
        if dryRun then batchSize - |jobs| else if settled then |t0.used| - |jobs| else deadline - w.clock(n),
        |left|
    {
      TimePasses(w, n, left);
      again, t, n, claims, stats, jobs, merged, left := Round(t0, t, w, n, claims, stats, jobs, merged, left, batchSize,
        workers, dryRun, now, lease, maxAttempts);
      KeptFits(t0, t, w, claims, jobs, dryRun, now, lease, maxAttempts);
    }
    ended := n;

    ghost var claimed := claims;
    t, stats, merged, left, claims := WaitForRest(t0, t, w, n, claims, stats, jobs, merged, left, deadline + 1,
      batchSize, workers, dryRun, now, lease, maxAttempts);
    EagerStays(t0, w, claimed, claims, workers, dryRun, now, lease, maxAttempts);
    KeptAtEnd(t0, t, w, claims, jobs, merged, left, stats, batchSize, workers, dryRun, now, lease, maxAttempts);
  }
}
