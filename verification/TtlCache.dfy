/** The gateway's single-flight cache: any number of tasks, interleaved at their await points. */
module TtlCache {
  import opened Values

  type Key = string
  type TaskId = nat

  datatype Entry<V> = Entry(storedAt: real, value: V)

  /** The cache between two atomic segments. A lock names the caller that holds it. */
  datatype Cache<V> = Cache(ttl: real, data: map<Key, Entry<V>>, locks: map<Key, TaskId>)

  /** `_fresh`. */
  function Fresh<V>(c: Cache<V>, key: Key, now: real): Option<Entry<V>> {
    if key !in c.data || c.ttl <= 0.0 || now - c.data[key].storedAt >= c.ttl then None
    else Some(c.data[key])
  }

  /** Taking the free lock of a key and looking again: it is kept only by a caller that has to fetch. */
  function AfterGrant<V>(c: Cache<V>, task: TaskId, key: Key, now: real): Cache<V> {
    if Fresh(c, key, now).Some? then c else c.(locks := c.locks[key := task])
  }

  function AfterStore<V>(c: Cache<V>, key: Key, value: V, now: real): Cache<V> {
    c.(data := c.data[key := Entry(now, value)], locks := c.locks - {key})
  }

  function AfterFailure<V>(c: Cache<V>, key: Key): Cache<V> {
    c.(locks := c.locks - {key})
  }

  /** What an atomic segment of `get_or_set` comes to. */
  datatype Outcome<V> = Hit(entry: Entry<V>) | Blocked | Fetch

  /** The object and its segments: each method runs without awaiting. */
  class TTLCache<V> {
    const ttl: real
    var data: map<Key, Entry<V>>
    var locks: map<Key, TaskId>

    constructor (ttl: real)
      ensures Snapshot() == Cache(ttl, map[], map[])
    {
      this.ttl, data, locks := ttl, map[], map[];
    }

    function Snapshot(): Cache<V> reads this { Cache(ttl, data, locks) }

    /** From the call to the lock: an entry stored less than the ttl ago is returned without it. */
    method FirstCheck(key: Key, now: real) returns (r: Outcome<V>)
      ensures r.Hit? <==> key in data && 0.0 < ttl && now < data[key].storedAt + ttl
      ensures r.Hit? ==> r.entry == data[key]
      ensures !r.Hit? ==> r.Blocked?
    {
      var entry := Fresh(Snapshot(), key, now);
      r := if entry.Some? then Hit(entry.value) else Blocked;
    }

    /** Once the lock is free: take it, look again, and leave it at once on a hit. */
    method UnderLock(task: TaskId, key: Key, now: real) returns (r: Outcome<V>)
      requires key !in locks
      modifies this`locks
      ensures r == if Fresh(old(Snapshot()), key, now).Some? then Hit(Fresh(old(Snapshot()), key, now).value) else Fetch
      ensures Snapshot() == AfterGrant(old(Snapshot()), task, key, now)
    {
      locks := locks[key := task];
      var entry := Fresh(Snapshot(), key, now);
      if entry.Some? {
        locks := locks - {key};
        return Hit(entry.value);
      }
      r := Fetch;
    }

    /** The factory has answered: store and leave the lock. */
    method Store(key: Key, value: V, now: real)
      modifies this
      ensures Snapshot() == AfterStore(old(Snapshot()), key, value, now)
    {
      data := data[key := Entry(now, value)];
      locks := locks - {key};
    }

    /** The factory has raised: leave the lock, store nothing. */
    method Abandon(key: Key)
      modifies this`locks
      ensures Snapshot() == AfterFailure(old(Snapshot()), key)
    {
      locks := locks - {key};
    }
  }

  // ---- All interleavings ---------------------------------------------------------

  datatype Pc = Idle | Waiting(key: Key) | Fetching(key: Key)

  /** What an observer may note: a factory starting, storing or failing, and what a call returned. */
  datatype Event<V> =
    | Started(task: TaskId, key: Key, at: real)
    | Stored(task: TaskId, key: Key, at: real, value: V)
    | FactoryFailed(task: TaskId, key: Key)
    | Served(task: TaskId, key: Key, value: V, checkedAt: real, storedAt: real)

  datatype State<V> = State(now: real, cache: Cache<V>, pcs: map<TaskId, Pc>, log: seq<Event<V>>)

  datatype Step<V> =
    | Tick(elapsed: real)
    | Call(task: TaskId, key: Key)
    | Granted(task: TaskId)
    | Succeed(task: TaskId, value: V)
    | Fail(task: TaskId)

  function PcOf<V>(s: State<V>, t: TaskId): Pc {
    if t in s.pcs then s.pcs[t] else Idle
  }

  /** The steps the event loop may take next; waiters are granted a free lock in any order. */
  predicate Enabled<V>(s: State<V>, step: Step<V>) {
    match step
    case Tick(d) => d >= 0.0
    case Call(t, k) => PcOf(s, t) == Idle
    case Granted(t) => PcOf(s, t).Waiting? && PcOf(s, t).key !in s.cache.locks
    case Succeed(t, v) => PcOf(s, t).Fetching?
    case Fail(t) => PcOf(s, t).Fetching?
  }

  function Next<V>(s: State<V>, step: Step<V>): State<V>
    requires Enabled(s, step)
  {
    match step
    case Tick(d) => s.(now := s.now + d)
    case Call(t, k) =>
      var e := Fresh(s.cache, k, s.now);
      if e.Some? then s.(log := s.log + [Served(t, k, e.value.value, s.now, e.value.storedAt)])
      else s.(pcs := s.pcs[t := Waiting(k)])
    case Granted(t) =>
      var k := PcOf(s, t).key;
      var e := Fresh(s.cache, k, s.now);
      if e.Some? then
        s.(pcs := s.pcs[t := Idle], log := s.log + [Served(t, k, e.value.value, s.now, e.value.storedAt)])
      else
        s.(cache := AfterGrant(s.cache, t, k, s.now), pcs := s.pcs[t := Fetching(k)],
           log := s.log + [Started(t, k, s.now)])
    case Succeed(t, v) =>
      var k := PcOf(s, t).key;
      s.(cache := AfterStore(s.cache, k, v, s.now), pcs := s.pcs[t := Idle], log := s.log + [Stored(t, k, s.now, v)])
    case Fail(t) =>
      var k := PcOf(s, t).key;
      s.(cache := AfterFailure(s.cache, k), pcs := s.pcs[t := Idle],
         log := s.log + [FactoryFailed(t, k)])
  }

  predicate Initial<V(==)>(s: State<V>) {
    s.cache.data == map[] && s.cache.locks == map[] && s.pcs == map[] && s.log == []
  }

  /** The states some schedule leads to. */
  predicate Runs<V(==)>(s: State<V>, steps: seq<Step<V>>, r: State<V>)
    decreases |steps|
  {
    if steps == [] then s == r else Enabled(s, steps[0]) && Runs(Next(s, steps[0]), steps[1..], r)
  }

  // ---- The invariant ----------------------------------------------------------------

  /** A lock is held exactly by the caller that fetches its key. */
  ghost predicate LocksFetch<V>(s: State<V>) {
    && (forall t :: PcOf(s, t).Fetching? ==> PcOf(s, t).key in s.cache.locks && s.cache.locks[PcOf(s, t).key] == t)
    && (forall k :: k in s.cache.locks ==> PcOf(s, s.cache.locks[k]) == Fetching(k))
  }

  predicate IsStore<V>(e: Event<V>, key: Key) {
    e.Stored? && e.key == key
  }

  /** The log has the store that made the entry. */
  predicate HasStore<V(==)>(log: seq<Event<V>>, key: Key, e: Entry<V>) {
    exists i :: 0 <= i < |log| && IsStore(log[i], key) && log[i].at == e.storedAt && log[i].value == e.value
  }

  /** The cache holds the newest store of every key, and no store lies in the future. */
  predicate DataIsNewest<V(==)>(s: State<V>) {
    && (forall i :: 0 <= i < |s.log| && s.log[i].Stored? ==>
          && s.log[i].key in s.cache.data
          && s.log[i].at <= s.cache.data[s.log[i].key].storedAt <= s.now)
    && (forall k :: k in s.cache.data ==> HasStore(s.log, k, s.cache.data[k]))
  }

  /** A factory starts only when every earlier store of its key is at least `ttl` old. */
  predicate StartsAreDue<V>(log: seq<Event<V>>, ttl: real) {
    forall i, j :: 0 <= i < j < |log| && log[j].Started? && IsStore(log[i], log[j].key) ==> log[j].at - log[i].at >= ttl
  }

  /** A value served from the cache was stored before, less than `ttl` ago. */
  predicate ServedIsFresh<V(==)>(log: seq<Event<V>>, ttl: real) {
    forall j :: 0 <= j < |log| && log[j].Served? ==>
      log[j].checkedAt - log[j].storedAt < ttl &&
      HasStore(log[..j], log[j].key, Entry(log[j].storedAt, log[j].value))
  }

  ghost predicate Inv<V>(s: State<V>) {
    LocksFetch(s) && DataIsNewest(s) && StartsAreDue(s.log, s.cache.ttl) && ServedIsFresh(s.log, s.cache.ttl)
  }

  lemma InitialInv<V>(s: State<V>)
    requires Initial(s)
    ensures Inv(s)
  {}

  /** Logging one more event keeps what was served fresh, if what it serves is. */
  lemma LogOne<V>(log: seq<Event<V>>, e: Event<V>, ttl: real)
    requires ServedIsFresh(log, ttl)
    requires e.Served? ==> e.checkedAt - e.storedAt < ttl && HasStore(log, e.key, Entry(e.storedAt, e.value))
    ensures ServedIsFresh(log + [e], ttl)
  {
    var longer := log + [e];
    forall j | 0 <= j < |longer| && longer[j].Served?
      ensures longer[j].checkedAt - longer[j].storedAt < ttl
      ensures HasStore(longer[..j], longer[j].key, Entry(longer[j].storedAt, longer[j].value))
    {
      assert longer[..j] == log[..j];
      if j == |log| { assert log[..j] == log; }
    }
  }

  lemma StartKeeps<V>(s: State<V>, t: TaskId, k: Key)
    requires Inv(s) && Fresh(s.cache, k, s.now).None?
    ensures StartsAreDue(s.log + [Started(t, k, s.now)], s.cache.ttl)
  {
    forall i | 0 <= i < |s.log| && IsStore(s.log[i], k) ensures s.now - s.log[i].at >= s.cache.ttl {
      assert s.log[i].Stored? && s.log[i].key == k;
    }
  }

  lemma StoreKeeps<V>(s: State<V>, t: TaskId, v: V)
    requires Inv(s) && PcOf(s, t).Fetching?
    ensures DataIsNewest(Next(s, Succeed(t, v)))
  {
    var r, k := Next(s, Succeed(t, v)), PcOf(s, t).key;
    var n := |s.log|;
    forall j | j in r.cache.data
      ensures HasStore(r.log, j, r.cache.data[j])
    {
      if j == k {
        assert IsStore(r.log[n], k);
      } else {
        var i :| 0 <= i < n && IsStore(s.log[i], j)
          && s.log[i].at == s.cache.data[j].storedAt && s.log[i].value == s.cache.data[j].value;
        assert r.log[i] == s.log[i];
      }
    }
  }

  /** Anything but a store leaves the newest stores where they are. */
  lemma LogGrows<V>(s: State<V>, r: State<V>)
    requires DataIsNewest(s) && r.cache.data == s.cache.data && s.now <= r.now
    requires s.log <= r.log && forall i :: |s.log| <= i < |r.log| ==> !r.log[i].Stored?
    ensures DataIsNewest(r)
  {
    forall k | k in r.cache.data
      ensures HasStore(r.log, k, r.cache.data[k])
    {
      var i :| 0 <= i < |s.log| && IsStore(s.log[i], k)
        && s.log[i].at == s.cache.data[k].storedAt && s.log[i].value == s.cache.data[k].value;
      assert r.log[i] == s.log[i];
    }
  }

  lemma StepKeepsLocks<V>(s: State<V>, step: Step<V>)
    requires LocksFetch(s) && Enabled(s, step)
    ensures LocksFetch(Next(s, step))
  {
    var r := Next(s, step);
    forall t | PcOf(r, t).Fetching? ensures PcOf(r, t).key in r.cache.locks && r.cache.locks[PcOf(r, t).key] == t {
      assert PcOf(s, t).Fetching? || step == Granted(t);
    }
    forall k | k in r.cache.locks ensures PcOf(r, r.cache.locks[k]) == Fetching(k) {
      assert k in s.cache.locks ==> PcOf(s, s.cache.locks[k]) == Fetching(k);
    }
  }

  lemma StepKeepsData<V>(s: State<V>, step: Step<V>)
    requires Inv(s) && Enabled(s, step)
    ensures DataIsNewest(Next(s, step))
  {
    if step.Succeed? { StoreKeeps(s, step.task, step.value); } else { LogGrows(s, Next(s, step)); }
  }

  lemma StepKeepsServed<V>(s: State<V>, step: Step<V>)
    requires Inv(s) && Enabled(s, step)
    ensures ServedIsFresh(Next(s, step).log, s.cache.ttl)
  {
    var r := Next(s, step);
    if r.log != s.log { LogOne(s.log, r.log[|s.log|], s.cache.ttl); }
  }

  lemma StepKeepsStarts<V>(s: State<V>, step: Step<V>)
    requires Inv(s) && Enabled(s, step)
    ensures StartsAreDue(Next(s, step).log, s.cache.ttl)
  {
    if step.Granted? && Fresh(s.cache, PcOf(s, step.task).key, s.now).None? {
      StartKeeps(s, step.task, PcOf(s, step.task).key);
    }
  }

  /** Every step of every task keeps the invariant. */
  lemma StepKeepsInv<V>(s: State<V>, step: Step<V>)
    requires Inv(s) && Enabled(s, step)
    ensures Inv(Next(s, step)) && Next(s, step).cache.ttl == s.cache.ttl
  {
    StepKeepsLocks(s, step);
    StepKeepsData(s, step);
    StepKeepsServed(s, step);
    StepKeepsStarts(s, step);
  }

  lemma {:induction false} RunKeepsInv<V>(s: State<V>, steps: seq<Step<V>>, r: State<V>)
    requires Inv(s) && Runs(s, steps, r)
    ensures Inv(r) && r.cache.ttl == s.cache.ttl
    decreases |steps|
  {
    if steps != [] {
      StepKeepsInv(s, steps[0]);
      RunKeepsInv(Next(s, steps[0]), steps[1..], r);
    }
  }

  /** In every interleaving: one factory per key at a time; a factory starts only when its key's stores are at least
      `ttl` old; every value served from the cache was stored less than `ttl` before the check. */
  lemma SingleFlight<V>(s: State<V>, steps: seq<Step<V>>, r: State<V>)
    requires Initial(s) && Runs(s, steps, r)
    ensures forall t, u :: PcOf(r, t).Fetching? && PcOf(r, u) == PcOf(r, t) ==> t == u
    ensures StartsAreDue(r.log, s.cache.ttl)
    ensures ServedIsFresh(r.log, s.cache.ttl)
  {
    InitialInv(s);
    RunKeepsInv(s, steps, r);
  }

  /** A failed factory stores nothing: the next caller of the key is told to fetch, exactly as before. */
  lemma FailureStoresNothing<V>(s: State<V>, t: TaskId, k: Key)
    requires Inv(s) && PcOf(s, t) == Fetching(k)
    ensures Next(s, Fail(t)).cache.data == s.cache.data
    ensures k !in Next(s, Fail(t)).cache.locks
    ensures forall u :: PcOf(s, u) == Waiting(k) ==> Enabled(Next(s, Fail(t)), Granted(u))
  {
    var r := Next(s, Fail(t));
    forall u | PcOf(s, u) == Waiting(k) ensures Enabled(r, Granted(u)) { assert u != t; }
  }

  /** A caller that waited out a successful fetch is served its value, without a fetch of its own. */
  lemma WaiterIsServed<V>(s: State<V>, t: TaskId, v: V, u: TaskId, k: Key)
    requires Inv(s) && PcOf(s, t) == Fetching(k) && PcOf(s, u) == Waiting(k) && s.cache.ttl > 0.0
    ensures var r := Next(s, Succeed(t, v));
      Enabled(r, Granted(u)) &&
      Next(r, Granted(u)).log == r.log + [Served(u, k, v, s.now, s.now)] && Next(r, Granted(u)).cache == r.cache
  {
    assert u != t;
  }
}
