/**
 The scheduler lock: SET key token NX EX ttl to enter, compare-and-delete to leave
 (config/task_lock.py). Acquire, exit, release, crash and expiry interleave freely.
 */
module TaskLock {
  import opened Prelude

  type Token = nat

  datatype Entry = Entry(token: Token, expiresAt: int)

  /** The key is there as long as its time to live has not run out. */
  predicate Held(key: Option<Entry>, now: int) {
    key.Some? && now < key.value.expiresAt
  }

  function Ttl(ttl: int): int { if ttl < 1 then 1 else ttl }

  /** SET NX EX: takes the key only when nobody holds it. */
  function SetIfAbsent(key: Option<Entry>, now: int, token: Token, ttl: int): Option<Entry> {
    if Held(key, now) then key else Some(Entry(token, now + Ttl(ttl)))
  }

  /** The release script: deletes the key only while it holds the given token. */
  function CompareAndDelete(key: Option<Entry>, now: int, token: Token): Option<Entry> {
    if Held(key, now) && key.value.token == token then None else key
  }

  class LockServer {
    var key: Option<Entry>
    var now: int

    method Acquire(token: Token, ttl: int) returns (acquired: bool)
      modifies this`key
      ensures acquired <==> (old(key).Some? ==> old(key).value.expiresAt <= now)
      ensures acquired ==> key == Some(Entry(token, now + if ttl < 1 then 1 else ttl))
      ensures key == SetIfAbsent(old(key), now, token, ttl)
    {
      if key.Some? && now >= key.value.expiresAt { key := None; }
      acquired := key.None?;
      if acquired { key := Some(Entry(token, now + if ttl < 1 then 1 else ttl)); }
    }

    method Release(token: Token, acquired: bool)
      modifies this`key
      ensures key == if acquired then CompareAndDelete(old(key), now, token) else old(key)
      ensures acquired && old(key).Some? && old(key).value.token == token ==>
        !(key.Some? && now < key.value.expiresAt)
    {
      if acquired && Held(key, now) {
        if key.value.token == token { key := None; }
      }
    }
  }

  // ---------------------------------------------------------- interleavings

  /** Where a run stands. */
  datatype Phase =
    | Refused                         // another run held the lock
    | Inside(since: int, ttl: int)    // running the body with the lock
    | Leaving(since: int, ttl: int)   // body over, release not sent yet
    | Over

  datatype State = State(key: Option<Entry>, now: int, runs: map<Token, Phase>)

  datatype Event =
    | Enter(token: Token, ttl: int)
    | Exit(token: Token)
    | SendRelease(token: Token)
    | LoseRelease(token: Token)  // the release hits a Redis error
    | Crash(token: Token)
    | Wait(seconds: nat)

  /** An event that is not enabled changes nothing. */
  function Next(s: State, e: Event): State {
    match e
    case Enter(t, ttl) =>
      if t in s.runs then s
      else if Held(s.key, s.now) then s.(runs := s.runs[t := Refused])
      else s.(key := SetIfAbsent(s.key, s.now, t, ttl), runs := s.runs[t := Inside(s.now, Ttl(ttl))])
    case Exit(t) =>
      if t in s.runs && s.runs[t].Inside? then s.(runs := s.runs[t := Leaving(s.runs[t].since, s.runs[t].ttl)])
      else if t in s.runs && s.runs[t].Refused? then s.(runs := s.runs[t := Over])
      else s
    case SendRelease(t) =>
      if t in s.runs && s.runs[t].Leaving?
      then s.(key := CompareAndDelete(s.key, s.now, t), runs := s.runs[t := Over])
      else s
    case LoseRelease(t) => if t in s.runs && s.runs[t].Leaving? then s.(runs := s.runs[t := Over]) else s
    case Crash(t) => if t in s.runs then s.(runs := s.runs[t := Over]) else s
    case Wait(d) => s.(now := s.now + d)
  }

  function Trace(s: State, events: seq<Event>): State
    decreases |events|
  {
    if events == [] then s else Trace(Next(s, events[0]), events[1..])
  }

  const FREE := State(None, 0, map[])

  /** A run that took the lock, has not left it, and is still within its time to live. */
  predicate Holds(s: State, t: Token) {
    t in s.runs && (s.runs[t].Inside? || s.runs[t].Leaving?) && s.now < s.runs[t].since + s.runs[t].ttl
  }

  predicate Running(s: State, t: Token) { t in s.runs && s.runs[t].Inside? }

  /** A holder within its time to live owns the key. */
  predicate Safe(s: State) {
    forall t :: t in s.runs && Holds(s, t) ==> s.key == Some(Entry(t, s.runs[t].since + s.runs[t].ttl))
  }

  lemma NextKeepsSafe(s: State, e: Event)
    requires Safe(s)
    ensures Safe(Next(s, e))
  {
    var s' := Next(s, e);
    forall t | t in s'.runs && Holds(s', t) ensures s'.key == Some(Entry(t, s'.runs[t].since + s'.runs[t].ttl)) {
      if t in s.runs && s.runs[t] != Refused { assert Holds(s, t); }
    }
  }

  lemma {:induction false} TraceIsSafe(s: State, events: seq<Event>)
    requires Safe(s)
    ensures Safe(Trace(s, events))
    decreases |events|
  {
    if events != [] {
      NextKeepsSafe(s, events[0]);
      TraceIsSafe(Next(s, events[0]), events[1..]);
    }
  }

  /**
   Mutual exclusion: in every interleaving, two runs are inside at the same time only if one of
   them has outlived its time to live.
   */
  lemma AtMostOneInside(events: seq<Event>, t: Token, u: Token)
    requires var s := Trace(FREE, events); Running(s, t) && Running(s, u)
    ensures var s := Trace(FREE, events);
            t == u || s.now >= s.runs[t].since + s.runs[t].ttl || s.now >= s.runs[u].since + s.runs[u].ttl
  {
    TraceIsSafe(FREE, events);
    var s := Trace(FREE, events);
    if Holds(s, t) && Holds(s, u) { assert s.key == s.key; }
  }

  /** The body of a run is the only place that can end its own hold early. */
  predicate EndsHold(e: Event, t: Token) {
    e == SendRelease(t) || e == LoseRelease(t) || e == Crash(t)
  }

  /**
   Whatever other runs do, refused, late or crashed ones included, the key of a holder stays in
   place until that holder itself ends or its time to live runs out.
   */
  lemma {:induction false} HolderKeepsKey(s: State, events: seq<Event>, t: Token)
    requires Safe(s) && t in s.runs && Holds(s, t)
    requires forall i :: 0 <= i < |events| ==> !EndsHold(events[i], t)
    requires Trace(s, events).now < s.key.value.expiresAt
    ensures var z := Trace(s, events);
            z.key == s.key && Held(z.key, z.now) && t in z.runs && Holds(z, t)
    decreases |events|
  {
    if events != [] {
      var s' := Next(s, events[0]);
      NextKeepsSafe(s, events[0]);
      TimeAdvances(s', events[1..]);
      assert !EndsHold(events[0], t);
      assert t in s'.runs && Holds(s', t);
      HolderKeepsKey(s', events[1..], t);
    }
  }

  lemma {:induction false} TimeAdvances(s: State, events: seq<Event>)
    ensures s.now <= Trace(s, events).now
    decreases |events|
  {
    if events != [] { TimeAdvances(Next(s, events[0]), events[1..]); }
  }

  /** The key only ever changes by an entry into a free lock or by the owner's own release. */
  lemma KeyChangesOnlyByOwner(s: State, e: Event)
    requires Next(s, e).key != s.key
    ensures (e.Enter? && !Held(s.key, s.now)) || (e.SendRelease? && s.key.Some? && s.key.value.token == e.token)
  {
  }

  /** The key of a run, while it lies there, expires when that run's time to live is over. */
  predicate ExpiresAt(s: State, t: Token, at: int) {
    t in s.runs && (s.key.Some? && s.key.value.token == t ==> s.key.value.expiresAt == at)
  }

  lemma {:induction false} TraceKeepsExpiry(s: State, events: seq<Event>, t: Token, at: int)
    requires ExpiresAt(s, t, at)
    ensures ExpiresAt(Trace(s, events), t, at)
    decreases |events|
  {
    if events != [] { TraceKeepsExpiry(Next(s, events[0]), events[1..], t, at); }
  }

  lemma {:induction false} TraceConcat(s: State, a: seq<Event>, b: seq<Event>)
    ensures Trace(s, a + b) == Trace(Trace(s, a), b)
    decreases |a|
  {
    if a == [] {
      assert a + b == b;
    } else {
      assert (a + b)[0] == a[0] && (a + b)[1..] == a[1..] + b;
      TraceConcat(Next(s, a[0]), a[1..], b);
    }
  }

  /**
   A run that got in at some time, and may have died since, keeps nobody out once its time to live is
   over: whatever happened in between, a new run gets in unless yet another run holds the key.
   */
  lemma FreeAfterTtl(before: seq<Event>, after: seq<Event>, t: Token, ttl: int, u: Token, uTtl: int)
    requires var s := Trace(FREE, before); t !in s.runs && !Held(s.key, s.now)
    requires Trace(FREE, before + [Enter(t, ttl)] + after).now >= Trace(FREE, before).now + Ttl(ttl)
    ensures var z := Trace(FREE, before + [Enter(t, ttl)] + after);
            Held(z.key, z.now) ==> z.key.value.token != t
    ensures var z := Trace(FREE, before + [Enter(t, ttl)] + after);
            u !in z.runs && (z.key.Some? ==> z.key.value.token == t) ==> Running(Next(z, Enter(u, uTtl)), u)
  {
    var s := Trace(FREE, before);
    var s' := Next(s, Enter(t, ttl));
    TraceConcat(FREE, before + [Enter(t, ttl)], after);
    TraceConcat(FREE, before, [Enter(t, ttl)]);
    assert Trace(s, [Enter(t, ttl)]) == Trace(s', []);
    TraceKeepsExpiry(s', after, t, s.now + Ttl(ttl));
  }

  // --------------------------------------------------------- held and released

  /** While the lock is free it stays free until somebody enters. */
  lemma {:induction false} FreeUntilEntry(s: State, events: seq<Event>)
    requires s.key.None? && forall i :: 0 <= i < |events| ==> !events[i].Enter?
    ensures Trace(s, events).key.None?
    decreases |events|
  {
    if events != [] { FreeUntilEntry(Next(s, events[0]), events[1..]); }
  }

  /**
   The release of a run that still holds the lock frees it at once: whatever happened before, and
   whatever but an entry happens after, the next new run gets in, for its own time to live.
   */
  lemma ReleaseFrees(before: seq<Event>, t: Token, after: seq<Event>, u: Token, ttl: int)
    requires var s := Trace(FREE, before); t in s.runs && s.runs[t].Leaving? && Holds(s, t)
    requires forall i :: 0 <= i < |after| ==> !after[i].Enter?
    requires u !in Trace(Next(Trace(FREE, before), SendRelease(t)), after).runs
    ensures var z := Trace(Next(Trace(FREE, before), SendRelease(t)), after);
            Running(Next(z, Enter(u, ttl)), u)
            && Next(z, Enter(u, ttl)).key == Some(Entry(u, z.now + if ttl < 1 then 1 else ttl))
  {
    TraceIsSafe(FREE, before);
    FreeUntilEntry(Next(Trace(FREE, before), SendRelease(t)), after);
  }

  /** Until a run releases, loses its release or dies, everybody else is refused for all of its time to live. */
  lemma HeldForItsTtl(before: seq<Event>, t: Token, ttl: int, after: seq<Event>, u: Token, uTtl: int)
    requires var s := Trace(FREE, before); t !in s.runs && !Held(s.key, s.now)
    requires forall i :: 0 <= i < |after| ==> !EndsHold(after[i], t)
    requires var s := Trace(FREE, before);
             var z := Trace(Next(s, Enter(t, ttl)), after);
             z.now < s.now + (if ttl < 1 then 1 else ttl) && u !in z.runs
    ensures var z := Trace(Next(Trace(FREE, before), Enter(t, ttl)), after);
            Next(z, Enter(u, uTtl)) == z.(runs := z.runs[u := Refused])
  {
    var s := Trace(FREE, before);
    TraceIsSafe(FREE, before);
    NextKeepsSafe(s, Enter(t, ttl));
    HolderKeepsKey(Next(s, Enter(t, ttl)), after, t);
  }

  /** A run that outlives its time to live can overlap the next one: the bound above is needed. */
  lemma LateRunOverlaps()
    ensures var s := Trace(FREE, [Enter(1, 10), Wait(10), Enter(2, 10)]);
            Running(s, 1) && Running(s, 2)
  {
    var a, b := Next(FREE, Enter(1, 10)), [Wait(10), Enter(2, 10)];
    var c, d := Next(a, Wait(10)), [Enter(2, 10)];
    assert [Enter(1, 10), Wait(10), Enter(2, 10)][1..] == b && b[1..] == d && d[1..] == [];
    assert Trace(c, d) == Trace(Next(c, Enter(2, 10)), []);
  }
}
