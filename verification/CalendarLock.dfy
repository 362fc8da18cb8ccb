/** The calendar run lock: a lock with an expiry kept in a record's free-form field, and the runs that use it. */
module CalendarLock {
  import opened Values

  const LOCK_KEY := "scheduler_lock"

  type RunId = nat

  /** The stored lock; an end that cannot be read as a time is no end. */
  datatype Lock = Lock(runId: RunId, scheduledTime: string, lockedUntil: Option<real>)

  /** What a key of `data_value` holds: a lock, or anything else. */
  datatype Item = LockItem(lock: Lock) | OtherItem(value: Value)

  /** `data_value` of a calendar record; None when the record has none. */
  type DataValue = Option<map<string, Item>>

  type Store = map<string, DataValue>

  function Items(dv: DataValue): map<string, Item> {
    if dv.Some? then dv.value else map[]
  }

  /** `_read_lock`: something under the key that is no lock counts as none. */
  function ReadLock(dv: DataValue): Option<Lock> {
    if LOCK_KEY in Items(dv) && Items(dv)[LOCK_KEY].LockItem? then Some(Items(dv)[LOCK_KEY].lock) else None
  }

  /** `_lock_active`. */
  predicate LockActive(l: Lock, now: real) {
    l.lockedUntil.Some? && l.lockedUntil.value > now
  }

  /** A lock of another run that is still in force. */
  predicate Barred(dv: DataValue, run: RunId, now: real) {
    ReadLock(dv).Some? && ReadLock(dv).value.runId != run && LockActive(ReadLock(dv).value, now)
  }

  /** The store after an acquire: refused for an unknown record or a foreign active lock. */
  function AfterAcquire(s: Store, name: string, run: RunId, scheduled: string, now: real, ttl: real): Store {
    if name in s && !Barred(s[name], run, now)
    then s[name := Some(Items(s[name])[LOCK_KEY := LockItem(Lock(run, scheduled, Some(now + ttl)))])]
    else s
  }

  predicate Acquires(s: Store, name: string, run: RunId, now: real) {
    name in s && !Barred(s[name], run, now)
  }

  /** The store after a release: only another run's active lock is left alone. */
  function AfterRelease(s: Store, name: string, run: RunId, now: real): Store {
    if name in s && !Barred(s[name], run, now) && ReadLock(s[name]).Some?
    then s[name := Some(Items(s[name]) - {LOCK_KEY})]
    else s
  }

  /** The gateway over the shared collection; each call is one step. */
  class CalendarGateway {
    const ttl: real
    var records: Store

    constructor (ttl: real, records: Store)
      ensures this.ttl == ttl && this.records == records
    {
      this.ttl, this.records := ttl, records;
    }

    /** `_set_lock`: a copy of the whole field, with the lock set or popped. */
    method SetLock(name: string, lock: Option<Lock>)
      requires name in records
      modifies this
      ensures records == old(records)[name := Some(
        if lock.Some? then Items(old(records)[name])[LOCK_KEY := LockItem(lock.value)]
        else Items(old(records)[name]) - {LOCK_KEY})]
    {
      var dv := Items(records[name]);
      dv := if lock.Some? then dv[LOCK_KEY := LockItem(lock.value)] else dv - {LOCK_KEY};
      records := records[name := Some(dv)];
    }

    /** `acquire_lock`. */
    method AcquireLock(name: string, run: RunId, scheduled: string, now: real) returns (locked: bool)
      modifies this
      ensures locked == Acquires(old(records), name, run, now)
      ensures records == AfterAcquire(old(records), name, run, scheduled, now, ttl)
      ensures locked ==> name in records && ReadLock(records[name]) == Some(Lock(run, scheduled, Some(now + ttl)))
    {
      if name !in records { return false; }
      var existing := ReadLock(records[name]);
      if existing.Some? && existing.value.runId != run && LockActive(existing.value, now) { return false; }
      SetLock(name, Some(Lock(run, scheduled, Some(now + ttl))));
      locked := true;
    }

    /** `release_lock`. */
    method ReleaseLock(name: string, run: RunId, now: real) returns (released: bool)
      modifies this
      ensures released == !(name in old(records) && Barred(old(records)[name], run, now))
      ensures records == AfterRelease(old(records), name, run, now)
      ensures released && name in old(records) ==>
        && name in records && ReadLock(records[name]).None?
        && Items(records[name]) - {LOCK_KEY} == Items(old(records)[name]) - {LOCK_KEY}
      ensures records.Keys == old(records).Keys
      ensures forall n :: n in records && n != name ==> records[n] == old(records)[n]
    {
      if name !in records { return true; }
      var existing := ReadLock(records[name]);
      if existing.Some? && existing.value.runId != run && LockActive(existing.value, now) { return false; }
      if existing.Some? { SetLock(name, None); }
      released := true;
    }
  }

  // ---- The runs: `execute_task`, interleaved --------------------------------------

  /** A run acquires, executes and releases in its `finally`; a refused run ends at once. */
  datatype Phase = Executing(name: string, since: real) | Ended

  datatype State = State(now: real, store: Store, runs: map<RunId, Phase>)

  datatype Step =
    | Tick(elapsed: real)
    | Start(run: RunId, name: string, scheduled: string)
    | Finish(run: RunId)
    | LoseRelease(run: RunId)

  predicate Enabled(s: State, step: Step) {
    match step
    case Tick(d) => d >= 0.0
    case Start(r, _, _) => r !in s.runs
    case Finish(r) => r in s.runs && s.runs[r].Executing?
    case LoseRelease(r) => r in s.runs && s.runs[r].Executing?
  }

  function Next(s: State, step: Step, ttl: real): State
    requires Enabled(s, step)
  {
    match step
    case Tick(d) => s.(now := s.now + d)
    case Start(r, name, scheduled) =>
      if Acquires(s.store, name, r, s.now) then
        s.(store := AfterAcquire(s.store, name, r, scheduled, s.now, ttl), runs := s.runs[r := Executing(name, s.now)])
      else s.(runs := s.runs[r := Ended])
    case Finish(r) => s.(store := AfterRelease(s.store, s.runs[r].name, r, s.now), runs := s.runs[r := Ended])
    case LoseRelease(r) => s.(runs := s.runs[r := Ended])
  }

  predicate Runs(s: State, steps: seq<Step>, ttl: real, r: State)
    decreases |steps|
  {
    if steps == [] then s == r else Enabled(s, steps[0]) && Runs(Next(s, steps[0], ttl), steps[1..], ttl, r)
  }

  /** The record carries the run's own lock until its time is up. */
  predicate Holds(s: State, run: RunId, name: string, until: real) {
    name in s.store && ReadLock(s.store[name]).Some? &&
    ReadLock(s.store[name]).value.runId == run && ReadLock(s.store[name]).value.lockedUntil == Some(until)
  }

  predicate Live(s: State, run: RunId) {
    run in s.runs && s.runs[run].Executing?
  }

  /** While a live run is within its time, its lock is the one on the record. */
  predicate KeepsLock(s: State, ttl: real, a: RunId) {
    Live(s, a) ==>
      s.runs[a].since <= s.now &&
      (s.now < s.runs[a].since + ttl ==> Holds(s, a, s.runs[a].name, s.runs[a].since + ttl))
  }

  /** Two live runs of one task began a full lock time apart. */
  predicate Apart(s: State, ttl: real, a: RunId, b: RunId) {
    Live(s, a) && Live(s, b) && a != b && s.runs[a].name == s.runs[b].name ==>
      s.runs[a].since + ttl <= s.runs[b].since || s.runs[b].since + ttl <= s.runs[a].since
  }

  ghost predicate Inv(s: State, ttl: real) {
    (forall a :: KeepsLock(s, ttl, a)) && (forall a, b :: Apart(s, ttl, a, b))
  }

  /** Nobody else's acquire succeeds, nor release clears anything, while a run's lock is in force. */
  lemma ActiveLockBars(s: Store, name: string, owner: RunId, until: real, other: RunId, scheduled: string, now: real,
    ttl: real)
    requires name in s && ReadLock(s[name]).Some? && other != owner && now < until
    requires ReadLock(s[name]).value.runId == owner && ReadLock(s[name]).value.lockedUntil == Some(until)
    ensures !Acquires(s, name, other, now)
    ensures AfterAcquire(s, name, other, scheduled, now, ttl) == s
    ensures AfterRelease(s, name, other, now) == s
  {}

  lemma StartIsApart(s: State, r: RunId, name: string, ttl: real, a: RunId)
    requires Inv(s, ttl) && r !in s.runs && Acquires(s.store, name, r, s.now) && Live(s, a) && s.runs[a].name == name
    ensures s.runs[a].since + ttl <= s.now
  {
    assert KeepsLock(s, ttl, a);
  }

  lemma StartKeepsInv(s: State, r: RunId, name: string, scheduled: string, ttl: real)
    requires Inv(s, ttl) && r !in s.runs
    ensures Inv(Next(s, Start(r, name, scheduled), ttl), ttl)
  {
    var t := Next(s, Start(r, name, scheduled), ttl);
    forall a ensures KeepsLock(t, ttl, a) {
      assert KeepsLock(s, ttl, a);
      if a != r && Live(s, a) && Acquires(s.store, name, r, s.now) && s.runs[a].name == name {
        StartIsApart(s, r, name, ttl, a);
      }
    }
    forall a, b ensures Apart(t, ttl, a, b) {
      assert Apart(s, ttl, a, b);
      if Acquires(s.store, name, r, s.now) {
        if a == r && Live(s, b) && s.runs[b].name == name { StartIsApart(s, r, name, ttl, b); }
        if b == r && Live(s, a) && s.runs[a].name == name { StartIsApart(s, r, name, ttl, a); }
      }
    }
  }

  lemma FinishKeepsInv(s: State, r: RunId, ttl: real)
    requires Inv(s, ttl) && Live(s, r)
    ensures Inv(Next(s, Finish(r), ttl), ttl)
  {
    var t, name := Next(s, Finish(r), ttl), s.runs[r].name;
    forall a ensures KeepsLock(t, ttl, a) {
      assert KeepsLock(s, ttl, a);
      if a != r && Live(s, a) && s.now < s.runs[a].since + ttl && s.runs[a].name == name {
        ActiveLockBars(s.store, name, a, s.runs[a].since + ttl, r, "", s.now, ttl);
      }
    }
    forall a, b ensures Apart(t, ttl, a, b) { assert Apart(s, ttl, a, b); }
  }

  lemma StepKeepsInv(s: State, step: Step, ttl: real)
    requires Inv(s, ttl) && Enabled(s, step)
    ensures Inv(Next(s, step, ttl), ttl)
  {
    match step {
      case Start(r, name, scheduled) => StartKeepsInv(s, r, name, scheduled, ttl);
      case Finish(r) => FinishKeepsInv(s, r, ttl);
      case _ =>
        var t := Next(s, step, ttl);
        forall a ensures KeepsLock(t, ttl, a) { assert KeepsLock(s, ttl, a); }
        forall a, b ensures Apart(t, ttl, a, b) { assert Apart(s, ttl, a, b); }
    }
  }

  lemma {:induction false} RunKeepsInv(s: State, steps: seq<Step>, ttl: real, r: State)
    requires Inv(s, ttl) && Runs(s, steps, ttl, r)
    ensures Inv(r, ttl)
    decreases |steps|
  {
    if steps != [] {
      StepKeepsInv(s, steps[0], ttl);
      RunKeepsInv(Next(s, steps[0], ttl), steps[1..], ttl, r);
    }
  }

  /** From any store, after any interleaving of runs: two runs execute the same task together only if the earlier one
      had outlived the lock's time when the later one began. */
  lemma OverlapOnlyPastTtl(s: State, steps: seq<Step>, ttl: real, r: State, a: RunId, b: RunId)
    requires s.runs == map[] && Runs(s, steps, ttl, r)
    requires Live(r, a) && Live(r, b) && a != b && r.runs[a].name == r.runs[b].name
    requires r.runs[a].since <= r.runs[b].since
    ensures r.runs[a].since + ttl <= r.runs[b].since
  {
    RunKeepsInv(s, steps, ttl, r);
    assert Apart(r, ttl, a, b);
  }

  /** After any interleaving, while a run executes within its time no other run acquires its task, and no late release
      by another run takes its lock away. */
  lemma LiveLockIsSafe(s: State, steps: seq<Step>, ttl: real, r: State, a: RunId, other: RunId, scheduled: string)
    requires s.runs == map[] && Runs(s, steps, ttl, r)
    requires Live(r, a) && other != a && r.now < r.runs[a].since + ttl
    ensures !Acquires(r.store, r.runs[a].name, other, r.now)
    ensures AfterRelease(r.store, r.runs[a].name, other, r.now) == r.store
  {
    RunKeepsInv(s, steps, ttl, r);
    assert KeepsLock(r, ttl, a);
    ActiveLockBars(r.store, r.runs[a].name, a, r.runs[a].since + ttl, other, scheduled, r.now, ttl);
  }

  /** The run's lock is the one on its record. */
  predicate Owns(s: State, run: RunId) {
    Live(s, run) && s.runs[run].name in s.store &&
    ReadLock(s.store[s.runs[run].name]).Some? && ReadLock(s.store[s.runs[run].name]).value.runId == run
  }

  /** A run that finishes while its lock is on the record takes it off and nothing else, and the next run of the task
      acquires and executes. */
  lemma FinishFrees(s: State, a: RunId, ttl: real, b: RunId, scheduled: string)
    requires Owns(s, a) && b !in s.runs
    ensures var name, t := s.runs[a].name, Next(s, Finish(a), ttl);
      && t.store.Keys == s.store.Keys && (forall n :: n in t.store && n != name ==> t.store[n] == s.store[n])
      && "scheduler_lock" !in Items(t.store[name])
      && (forall k :: k != "scheduler_lock" ==>
            (k in Items(t.store[name]) <==> k in Items(s.store[name])) &&
            (k in Items(t.store[name]) ==> Items(t.store[name])[k] == Items(s.store[name])[k]))
      && Next(t, Start(b, name, scheduled), ttl).runs == t.runs[b := Executing(name, s.now)]
  {}

  /** From any store, after any interleaving: a run that finishes within its time frees its task for the next one. */
  lemma FinishedRunYields(s: State, steps: seq<Step>, ttl: real, r: State, a: RunId, b: RunId, scheduled: string)
    requires s.runs == map[] && Runs(s, steps, ttl, r)
    requires Live(r, a) && r.now < r.runs[a].since + ttl && b !in r.runs
    ensures var name, t := r.runs[a].name, Next(r, Finish(a), ttl);
      && name in t.store && ReadLock(t.store[name]).None?
      && Next(t, Start(b, name, scheduled), ttl).runs == t.runs[b := Executing(name, r.now)]
  {
    RunKeepsInv(s, steps, ttl, r);
    assert KeepsLock(r, ttl, a);
    FinishFrees(r, a, ttl, b, scheduled);
  }

  predicate Grants(s: State, step: Step, name: string) {
    step.Start? && step.name == name && Acquires(s.store, name, step.run, s.now)
  }

  /** When a run of the task last acquired its lock, if one did. */
  function LastGrant(s: State, steps: seq<Step>, ttl: real, r: State, name: string, last: Option<real>): Option<real>
    requires Runs(s, steps, ttl, r)
    decreases |steps|
  {
    if steps == [] then last
    else
      var granted := if Grants(s, steps[0], name) then Some(s.now) else last;
      LastGrant(Next(s, steps[0], ttl), steps[1..], ttl, r, name, granted)
  }

  /** A lock left after a grant is that grant's. */
  predicate LockFrom(s: State, name: string, last: Option<real>, ttl: real) {
    last.Some? ==>
      name in s.store &&
      (ReadLock(s.store[name]).Some? ==> ReadLock(s.store[name]).value.lockedUntil == Some(last.value + ttl))
  }

  lemma {:induction false} GrantedLock(s: State, steps: seq<Step>, ttl: real, r: State, name: string,
    last: Option<real>)
    requires Runs(s, steps, ttl, r) && LockFrom(s, name, last, ttl)
    ensures LockFrom(r, name, LastGrant(s, steps, ttl, r, name, last), ttl)
    decreases |steps|
  {
    if steps != [] {
      var granted := if Grants(s, steps[0], name) then Some(s.now) else last;
      GrantedLock(Next(s, steps[0], ttl), steps[1..], ttl, r, name, granted);
    }
  }

  /** From any store, after any interleaving, releases lost or not: once a lock time has passed since a task's last
      acquire, every new run of the task acquires and executes. */
  lemma ExpiredLockYields(s: State, steps: seq<Step>, ttl: real, r: State, name: string, run: RunId, scheduled: string)
    requires Runs(s, steps, ttl, r) && run !in r.runs
    requires var last := LastGrant(s, steps, ttl, r, name, None); last.Some? && last.value + ttl <= r.now
    ensures Next(r, Start(run, name, scheduled), ttl).runs == r.runs[run := Executing(name, r.now)]
  {
    GrantedLock(s, steps, ttl, r, name, None);
  }

  predicate SameOtherKeys(s: Store, t: Store) {
    s.Keys == t.Keys && forall n :: n in s ==> Items(s[n]) - {LOCK_KEY} == Items(t[n]) - {LOCK_KEY}
  }

  /** Over any run, no record appears or vanishes and no key of the free-form field but the lock's changes. */
  lemma {:induction false} OtherKeysUntouched(s: State, steps: seq<Step>, ttl: real, r: State)
    requires Runs(s, steps, ttl, r)
    ensures SameOtherKeys(s.store, r.store)
    decreases |steps|
  {
    if steps != [] {
      var t := Next(s, steps[0], ttl);
      forall n | n in s.store
        ensures n in t.store && Items(s.store[n]) - {LOCK_KEY} == Items(t.store[n]) - {LOCK_KEY} {}
      OtherKeysUntouched(t, steps[1..], ttl, r);
    }
  }
}
