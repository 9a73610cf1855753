/**
 Deleting every row of a company over several passes
 (apps/actions/company_deletion.py:96-112). Deleting a model's rows takes along
 every row that refers to them by CASCADE, and is refused when any collected row
 is referred to by PROTECT.
 */
module CompanyPurge {

  type RowId = nat
  type Model = nat

  datatype Row = Row(model: Model, companyId: nat)

  /** Rows and their foreign keys, as (referring row, referred row) pairs. */
  datatype Db = Db(rows: map<RowId, Row>, cascade: set<(RowId, RowId)>, protect: set<(RowId, RowId)>)

  /** Every key refers to an existing row of the same company. */
  ghost predicate KeysStayInside(db: Db) {
    forall e :: e in db.cascade + db.protect && e.0 in db.rows ==>
      e.1 in db.rows && db.rows[e.1].companyId == db.rows[e.0].companyId
  }

  function RowsOf(db: Db, m: Model, companyId: nat): set<RowId> {
    set r | r in db.rows && db.rows[r].model == m && db.rows[r].companyId == companyId
  }

  ghost predicate Closed(db: Db, collected: set<RowId>) {
    forall e :: e in db.cascade && e.1 in collected && e.0 in db.rows ==> e.0 in collected
  }

  /** The rows a delete collects: the given ones and, step by step, the rows that cascade from them. */
  ghost function Collect(db: Db, start: set<RowId>): (collected: set<RowId>)
    requires start <= db.rows.Keys
    ensures start <= collected <= db.rows.Keys && Closed(db, collected)
    ensures forall closed: set<RowId> :: start <= closed && Closed(db, closed) ==> collected <= closed
    decreases db.rows.Keys - start
  {
    if e :| e in db.cascade && e.1 in start && e.0 in db.rows && e.0 !in start
    then Collect(db, start + {e.0})
    else start
  }

  function Remove(db: Db, gone: set<RowId>): Db {
    db.(rows := db.rows - gone)
  }

  ghost predicate Blocked(db: Db, m: Model, companyId: nat) {
    exists e :: e in db.protect && e.0 in db.rows && e.1 in Collect(db, RowsOf(db, m, companyId))
  }

  /** Every row of the company belongs to one of the models that are purged. */
  ghost predicate Scoped(db: Db, models: seq<Model>, companyId: nat) {
    forall r :: r in db.rows && db.rows[r].companyId == companyId ==> db.rows[r].model in models
  }

  /**
   A deadlock: rows of the company such that whatever delete would collect one of them also
   collects a row that one of them protects.
   */
  ghost predicate Deadlock(db: Db, models: seq<Model>, companyId: nat, knot: set<RowId>) {
    knot != {} && knot <= db.rows.Keys && (forall r :: r in knot ==> db.rows[r].companyId == companyId) &&
    forall m :: m in models && !(Collect(db, RowsOf(db, m, companyId)) !! knot) ==> GuardedBy(db, m, companyId, knot)
  }

  ghost predicate GuardedBy(db: Db, m: Model, companyId: nat, guards: set<RowId>) {
    exists e :: e in db.protect && e.0 in guards && e.1 in Collect(db, RowsOf(db, m, companyId))
  }

  // ------------------------------------------------------ states on the way

  ghost function Gone(start: Db, db: Db): set<RowId> { start.rows.Keys - db.rows.Keys }

  /** `db` is `start` after some deletes for the company, each of which took all its collected rows. */
  ghost predicate Reached(start: Db, db: Db, companyId: nat) {
    db == Remove(start, Gone(start, db)) && Closed(start, Gone(start, db)) && KeysStayInside(db) &&
    forall r :: r in Gone(start, db) ==> start.rows[r].companyId == companyId
  }

  lemma CollectStaysInside(db: Db, m: Model, companyId: nat)
    requires KeysStayInside(db)
    ensures forall r :: r in Collect(db, RowsOf(db, m, companyId)) ==> db.rows[r].companyId == companyId
  {
    var own := set r | r in db.rows && db.rows[r].companyId == companyId;
    assert RowsOf(db, m, companyId) <= own;
    forall e | e in db.cascade && e.1 in own && e.0 in db.rows ensures e.0 in own {
      assert e in db.cascade + db.protect;
    }
    assert Closed(db, own);
  }

  /** What a model's delete collects now is what it would have collected at the start, less what is gone. */
  lemma CollectLater(start: Db, db: Db, m: Model, companyId: nat)
    requires Reached(start, db, companyId)
    ensures Collect(db, RowsOf(db, m, companyId)) <= Collect(start, RowsOf(start, m, companyId))
    ensures Collect(start, RowsOf(start, m, companyId)) <= Collect(db, RowsOf(db, m, companyId)) + Gone(start, db)
  {
    var s0, s1 := RowsOf(start, m, companyId), RowsOf(db, m, companyId);
    var c0, c1 := Collect(start, s0), Collect(db, s1);
    assert s1 <= c0 && Closed(db, c0);
    var whole := c1 + Gone(start, db);
    assert s0 <= whole && Closed(start, whole);
  }

  /** A delete that is not refused leads to a state of the same kind. */
  lemma ReachedStep(start: Db, db: Db, m: Model, companyId: nat)
    requires Reached(start, db, companyId) && !Blocked(db, m, companyId)
    ensures Reached(start, Remove(db, Collect(db, RowsOf(db, m, companyId))), companyId)
  {
    CollectStaysInside(db, m, companyId);
    var c := Collect(db, RowsOf(db, m, companyId));
    var next := Remove(db, c);
    assert Gone(start, next) == Gone(start, db) + c;
    assert next.rows == start.rows - Gone(start, next);
    forall e | e in next.cascade + next.protect && e.0 in next.rows
      ensures e.1 in next.rows && next.rows[e.1].companyId == next.rows[e.0].companyId
    {
      assert e in db.cascade + db.protect;
    }
  }

  /** While a deadlock is intact, a delete that would touch it is refused. */
  lemma DeadlockHolds(start: Db, db: Db, models: seq<Model>, companyId: nat, knot: set<RowId>, m: Model)
    requires Reached(start, db, companyId) && Deadlock(start, models, companyId, knot) && knot <= db.rows.Keys
    requires m in models && !(Collect(db, RowsOf(db, m, companyId)) !! knot)
    ensures Blocked(db, m, companyId)
  {
    CollectLater(start, db, m, companyId);
    var e :| e in start.protect && e.0 in knot && e.1 in Collect(start, RowsOf(start, m, companyId));
    assert e in db.cascade + db.protect;
    assert e.1 in Collect(db, RowsOf(db, m, companyId));
  }

  /** A state of the purge in which every deadlock of the first state is still complete. */
  ghost predicate Between(start: Db, db: Db, models: seq<Model>, companyId: nat, knot: set<RowId>) {
    Reached(start, db, companyId) && (Deadlock(start, models, companyId, knot) ==> knot <= db.rows.Keys)
  }

  ghost predicate Stuck(db: Db, remaining: seq<Model>, companyId: nat) {
    forall i :: 0 <= i < |remaining| ==> Blocked(db, remaining[i], companyId)
  }

  function CompanyRows(db: Db, companyId: nat): set<RowId> {
    set r | r in db.rows && db.rows[r].companyId == companyId
  }

  lemma NothingCollected(db: Db)
    ensures Collect(db, {}) == {}
  {
    assert Closed(db, {});
  }

  /** When every remaining model is refused, the company's remaining rows are a deadlock of the first state. */
  lemma StuckIsDeadlock(start: Db, db: Db, models: seq<Model>, remaining: seq<Model>, companyId: nat)
    requires Reached(start, db, companyId) && Scoped(start, models, companyId)
    requires remaining != [] && Stuck(db, remaining, companyId)
    requires forall m :: m in models && m !in remaining ==> RowsOf(db, m, companyId) == {}
    ensures Deadlock(start, models, companyId, CompanyRows(db, companyId))
  {
    var knot := CompanyRows(db, companyId);
    forall m | m in remaining ensures GuardedBy(start, m, companyId, knot) {
      var i :| 0 <= i < |remaining| && remaining[i] == m;
      assert Blocked(db, m, companyId);
      var e :| e in db.protect && e.0 in db.rows && e.1 in Collect(db, RowsOf(db, m, companyId));
      CollectStaysInside(db, m, companyId);
      assert e in db.cascade + db.protect;
      CollectLater(start, db, m, companyId);
    }
    assert GuardedBy(start, remaining[0], companyId, knot);
    forall m | m in models && !(Collect(start, RowsOf(start, m, companyId)) !! knot)
      ensures GuardedBy(start, m, companyId, knot)
    {
      CollectLater(start, db, m, companyId);
      if m !in remaining { NothingCollected(db); }
    }
  }

  // -------------------------------------------------------------- the purge

  /** Where a pass stands after the first `j` remaining models. */
  ghost predicate PassSoFar(first: Db, db: Db, models: seq<Model>, remaining: seq<Model>, j: nat, blocked: seq<Model>,
                            companyId: nat)
    requires j <= |remaining|
  {
    (forall m :: m in blocked ==> m in models)
    && (forall m :: m in models && m !in blocked ==> RowsOf(db, m, companyId) == {} || m in remaining[j..])
    && (|blocked| < j || (db == first && blocked == remaining[..j] && Stuck(db, blocked, companyId)))
    && (Stuck(first, remaining, companyId) ==> blocked == remaining[..j] && db == first)
  }

  lemma PassStep(first: Db, before: Db, db: Db, models: seq<Model>, remaining: seq<Model>, j: nat, blocked: seq<Model>,
                 done: bool, companyId: nat)
    requires j < |remaining| && remaining[j] in models
    requires PassSoFar(first, before, models, remaining, j, blocked, companyId)
    requires done <==> !Blocked(before, remaining[j], companyId)
    requires if done then RowsOf(db, remaining[j], companyId) == {} else db == before
    requires forall other :: RowsOf(db, other, companyId) <= RowsOf(before, other, companyId)
    ensures PassSoFar(first, db, models, remaining, j + 1, if done then blocked else blocked + [remaining[j]],
      companyId)
  {
    assert remaining[j..] == [remaining[j]] + remaining[j + 1..];
    assert remaining[..j + 1] == remaining[..j] + [remaining[j]];
  }

  lemma PassStarts(db: Db, models: seq<Model>, remaining: seq<Model>, companyId: nat)
    requires forall m :: m in models && m !in remaining ==> RowsOf(db, m, companyId) == {}
    ensures PassSoFar(db, db, models, remaining, 0, [], companyId)
  {
    assert remaining[0..] == remaining;
  }

  lemma PassEnds(first: Db, db: Db, models: seq<Model>, remaining: seq<Model>, blocked: seq<Model>, companyId: nat)
    requires PassSoFar(first, db, models, remaining, |remaining|, blocked, companyId)
    ensures forall m :: m in models && m !in blocked ==> RowsOf(db, m, companyId) == {}
    ensures |blocked| < |remaining| || (blocked == remaining && Stuck(db, blocked, companyId))
    ensures Stuck(first, remaining, companyId) ==> blocked == remaining
  {
    assert remaining[..|remaining|] == remaining && remaining[|remaining|..] == [];
  }

  /** Some deadlock, if there is one. */
  ghost function FindKnot(db: Db, models: seq<Model>, companyId: nat): (knot: set<RowId>)
    ensures Deadlock(db, models, companyId, knot) <==> exists k :: Deadlock(db, models, companyId, k)
  {
    if k :| Deadlock(db, models, companyId, k) then k else {}
  }

  lemma NothingGone(db: Db, models: seq<Model>, companyId: nat, knot: set<RowId>)
    requires KeysStayInside(db)
    ensures Between(db, db, models, companyId, knot)
  {
    assert Gone(db, db) == {};
    assert db.rows - {} == db.rows;
  }

  lemma GoneIsOfCompany(start: Db, db: Db, models: seq<Model>, companyId: nat, knot: set<RowId>)
    requires Between(start, db, models, companyId, knot)
    ensures db == Remove(start, Gone(start, db)) && Gone(start, db) <= CompanyRows(start, companyId)
  {
  }

  class Database {
    var db: Db

    /** Collects the rows a delete would take, one cascade at a time. */
    method CollectRows(start: set<RowId>) returns (collected: set<RowId>)
      requires start <= db.rows.Keys
      ensures collected == Collect(db, start)
    {
      collected := start;
      while exists e :: e in db.cascade && e.1 in collected && e.0 in db.rows && e.0 !in collected
        invariant start <= collected <= db.rows.Keys
        invariant collected <= Collect(db, start)
        decreases db.rows.Keys - collected
      {
        var e :| e in db.cascade && e.1 in collected && e.0 in db.rows && e.0 !in collected;
        collected := collected + {e.0};
      }
      assert Closed(db, collected);
    }

    /** One model's delete: refused by a protected row, or all collected rows go. */
    method DeleteModel(m: Model, companyId: nat) returns (done: bool, count: nat)
      modifies this
      ensures done <==> !Blocked(old(db), m, companyId)
      ensures done ==> db == Remove(old(db), Collect(old(db), RowsOf(old(db), m, companyId)))
      ensures done ==> count == |Collect(old(db), RowsOf(old(db), m, companyId))|
      ensures !done ==> db == old(db)
    {
      var collected := CollectRows(RowsOf(db, m, companyId));
      if exists e :: e in db.protect && e.0 in db.rows && e.1 in collected { return false, 0; }
      db := Remove(db, collected);
      return true, |collected|;
    }

    /**
     The passes: models refused in one pass are tried again in the next, at most once more often than
     there are models. It fails exactly when the company's rows contain a deadlock.
     */
    method DeleteCompanyRows(models: seq<Model>, companyId: nat) returns (ok: bool, deleted: nat)
      requires KeysStayInside(db) && Scoped(db, models, companyId)
      modifies this
      ensures ok <==> forall knot :: !Deadlock(old(db), models, companyId, knot)
      ensures ok ==> db.rows == old(db).rows - CompanyRows(old(db), companyId)
      ensures db == Remove(old(db), Gone(old(db), db)) && Gone(old(db), db) <= CompanyRows(old(db), companyId)
      ensures deleted == |old(db).rows| - |db.rows|
    {
      ghost var start := db;
      ghost var knot := FindKnot(db, models, companyId);
      NothingGone(db, models, companyId, knot);
      ghost var last: seq<Model>;
      ok, deleted, last := RunPasses(start, models, companyId, knot);
      GoneIsOfCompany(start, db, models, companyId, knot);
      if ok {
        AllGone(start, db, models, companyId, knot);
      } else {
        StuckIsDeadlock(start, db, models, last, companyId);
      }
    }

    /** At most one pass more than there are models; stops when a pass refuses nothing. */
    method RunPasses(ghost start: Db, models: seq<Model>, companyId: nat, ghost knot: set<RowId>)
      returns (ok: bool, deleted: nat, ghost last: seq<Model>)
      requires Between(start, db, models, companyId, knot)
      modifies this
      ensures Between(start, db, models, companyId, knot) && deleted == |old(db).rows| - |db.rows|
      ensures ok ==> forall m :: m in models ==> RowsOf(db, m, companyId) == {}
      ensures !ok ==> last != [] && Stuck(db, last, companyId)
      ensures !ok ==> forall m :: m in models && m !in last ==> RowsOf(db, m, companyId) == {}
    {
      var remaining := models;
      deleted := 0;
      for attempt := 0 to |models| + 1
        invariant Between(start, db, models, companyId, knot) && deleted == |old(db).rows| - |db.rows|
        invariant forall m :: m in remaining ==> m in models
        invariant forall m :: m in models && m !in remaining ==> RowsOf(db, m, companyId) == {}
        invariant |remaining| <= |models| - attempt || (remaining != [] && Stuck(db, remaining, companyId))
      {
        var blocked, count := Pass(start, models, remaining, companyId, knot);
        deleted := deleted + count;
        if blocked == [] {
          return true, deleted, [];
        }
        remaining := blocked;
      }
      ok, last := false, remaining;
    }


    /** One pass over the remaining models. */
    method Pass(ghost start: Db, models: seq<Model>, remaining: seq<Model>, companyId: nat, ghost knot: set<RowId>)
      returns (blocked: seq<Model>, deleted: nat)
      requires Between(start, db, models, companyId, knot)
      requires forall m :: m in remaining ==> m in models
      requires forall m :: m in models && m !in remaining ==> RowsOf(db, m, companyId) == {}
      modifies this
      ensures Between(start, db, models, companyId, knot) && deleted == |old(db).rows| - |db.rows|
      ensures forall m :: m in blocked ==> m in models
      ensures forall m :: m in models && m !in blocked ==> RowsOf(db, m, companyId) == {}
      ensures |blocked| < |remaining| || (blocked == remaining && Stuck(db, blocked, companyId))
      ensures remaining != [] && Stuck(old(db), remaining, companyId) ==> blocked == remaining
    {
      blocked, deleted := [], 0;
      PassStarts(db, models, remaining, companyId);
      for j := 0 to |remaining|
        invariant Between(start, db, models, companyId, knot) && deleted == |old(db).rows| - |db.rows|
        invariant PassSoFar(old(db), db, models, remaining, j, blocked, companyId)
      {
        var m := remaining[j];
        ghost var before := db;
        var done, count := TryModel(start, models, m, companyId, knot);
        PassStep(old(db), before, db, models, remaining, j, blocked, done, companyId);
        if done { deleted := deleted + count; } else { blocked := blocked + [m]; }
      }
      PassEnds(old(db), db, models, remaining, blocked, companyId);
    }

    /** One attempt inside a pass. */
    method TryModel(ghost start: Db, models: seq<Model>, m: Model, companyId: nat, ghost knot: set<RowId>)
      returns (done: bool, count: nat)
      requires Between(start, db, models, companyId, knot) && m in models
      modifies this
      ensures Between(start, db, models, companyId, knot)
      ensures done <==> !Blocked(old(db), m, companyId)
      ensures if done then count == |old(db).rows| - |db.rows| && RowsOf(db, m, companyId) == {} else db == old(db)
      ensures forall other :: RowsOf(db, other, companyId) <= RowsOf(old(db), other, companyId)
    {
      ghost var before := db;
      done, count := DeleteModel(m, companyId);
      if done {
        ghost var c := Collect(before, RowsOf(before, m, companyId));
        ReachedStep(start, before, m, companyId);
        if Deadlock(start, models, companyId, knot) && !(c !! knot) {
          DeadlockHolds(start, before, models, companyId, knot, m);
        }
        RowsRemoved(before, c);
      }
    }
  }

  lemma RowsRemoved(db: Db, gone: set<RowId>)
    requires gone <= db.rows.Keys
    ensures |Remove(db, gone).rows| == |db.rows| - |gone|
    ensures forall m, c :: RowsOf(Remove(db, gone), m, c) == RowsOf(db, m, c) - gone
  {
    var next := Remove(db, gone);
    assert next.rows.Keys == db.rows.Keys - gone;
    assert |next.rows| == |next.rows.Keys| && |db.rows| == |db.rows.Keys|;
  }

  lemma AllGone(start: Db, db: Db, models: seq<Model>, companyId: nat, knot: set<RowId>)
    requires Between(start, db, models, companyId, knot) && Scoped(start, models, companyId)
    requires forall m :: m in models ==> RowsOf(db, m, companyId) == {}
    ensures db.rows == start.rows - CompanyRows(start, companyId) && !Deadlock(start, models, companyId, knot)
  {
    assert forall r :: r in db.rows ==> r in RowsOf(db, db.rows[r].model, db.rows[r].companyId);
    assert Gone(start, db) == CompanyRows(start, companyId);
  }

  // --------------------------------------------------------- acyclic schemas

  lemma {:induction false} LowestRow(rows: map<RowId, Row>, knot: set<RowId>, rank: Model -> nat) returns (r: RowId)
    requires knot != {} && knot <= rows.Keys
    ensures r in knot && forall k :: k in knot ==> rank(rows[r].model) <= rank(rows[k].model)
    decreases knot
  {
    r :| r in knot;
    if knot != {r} {
      var s := LowestRow(rows, knot - {r}, rank);
      if rank(rows[s].model) < rank(rows[r].model) { r := s; }
    }
  }

  /** Every row of a deadlock is kept in place by another row of it. */
  lemma GuardInside(db: Db, models: seq<Model>, companyId: nat, knot: set<RowId>, r: RowId) returns (e: (RowId, RowId))
    requires Scoped(db, models, companyId) && Deadlock(db, models, companyId, knot) && r in knot
    ensures e in db.protect && e.0 in knot && e.1 in Collect(db, RowsOf(db, db.rows[r].model, companyId)) &&
      db.rows[r].model in models
  {
    var m := db.rows[r].model;
    assert r in RowsOf(db, m, companyId);
    assert GuardedBy(db, m, companyId, knot);
    e :| e in db.protect && e.0 in knot && e.1 in Collect(db, RowsOf(db, m, companyId));
  }

  /**
   If the models can be ranked so that a row is only ever guarded, directly or through rows that
   cascade from it, by rows of lower rank, there is no deadlock and the purge succeeds.
   */
  lemma RankedIsDeadlockFree(db: Db, models: seq<Model>, companyId: nat, rank: Model -> nat, knot: set<RowId>)
    requires Scoped(db, models, companyId)
    requires forall e, m | e in db.protect && e.0 in db.rows && m in models ::
      e.1 in Collect(db, RowsOf(db, m, companyId)) ==> rank(db.rows[e.0].model) < rank(m)
    ensures !Deadlock(db, models, companyId, knot)
  {
    if Deadlock(db, models, companyId, knot) {
      var r := LowestRow(db.rows, knot, rank);
      var guard := GuardInside(db, models, companyId, knot, r);
    }
  }

  /** Where nothing is protected, as in the models of this service, no purge is ever refused. */
  lemma UnprotectedIsDeadlockFree(db: Db, models: seq<Model>, companyId: nat, knot: set<RowId>)
    requires Scoped(db, models, companyId) && db.protect == {}
    ensures !Deadlock(db, models, companyId, knot)
  {
    RankedIsDeadlockFree(db, models, companyId, _ => 0, knot);
  }

  /** Without cascades an acyclic PROTECT graph is enough. */
  lemma AcyclicProtectWithoutCascade(db: Db, models: seq<Model>, companyId: nat, rank: Model -> nat, knot: set<RowId>)
    requires Scoped(db, models, companyId) && db.cascade == {}
    requires forall e :: e in db.protect && e.0 in db.rows && e.1 in db.rows ==>
      rank(db.rows[e.0].model) < rank(db.rows[e.1].model)
    ensures !Deadlock(db, models, companyId, knot)
  {
    forall e, m | e in db.protect && e.0 in db.rows && m in models && e.1 in Collect(db, RowsOf(db, m, companyId))
      ensures rank(db.rows[e.0].model) < rank(m)
    {
      assert Closed(db, RowsOf(db, m, companyId));
    }
    RankedIsDeadlockFree(db, models, companyId, rank, knot);
  }

  /**
   With cascades it is not: a parent row that protects its own cascading child blocks both deletes
   for ever, although the PROTECT graph (parent to child) has no cycle.
   */
  lemma AcyclicProtectCanDeadlock()
    ensures var db := Db(map[1 := Row(1, 7), 2 := Row(2, 7)], {(2, 1)}, {(1, 2)});
            KeysStayInside(db) && Scoped(db, [1, 2], 7) && Deadlock(db, [1, 2], 7, {1, 2})
  {
    var db := Db(map[1 := Row(1, 7), 2 := Row(2, 7)], {(2, 1)}, {(1, 2)});
    assert 1 in RowsOf(db, 1, 7) && 2 in RowsOf(db, 2, 7);
    assert (2, 1) in db.cascade && (1, 2) in db.protect;
    forall m | m in [1, 2] ensures GuardedBy(db, m, 7, {1, 2}) {
      var c := Collect(db, RowsOf(db, m, 7));
      assert 2 in c;
    }
  }
}
