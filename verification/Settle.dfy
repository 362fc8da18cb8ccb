/** Waiting for a process to settle: a polling loop against a deadline. */
module Settle {
  import opened Values

  /** A user task; `key` is `str(task.get("user_task_key") or "")`. */
  datatype Task = Task(key: string, body: Record)

  /** What one turn of the loop reads, the clock last. */
  datatype Poll = Poll(state: string, variables: Record, tasks: seq<Task>, clock: real)

  datatype Reason = Disabled | Completed | Terminated | UserTask | Timeout

  datatype Outcome = Outcome(reason: Reason, tasks: seq<Task>, variables: Record) {
    predicate Settled() { !reason.Timeout? }
  }

  function Max(a: real, b: real): (m: real)
    ensures m >= a && m >= b && m in {a, b}
  {
    if a < b then b else a
  }

  /** The time the loop sleeps between two turns. */
  function Pause(interval: real): (s: real)
    ensures s >= 0.05 && (interval >= 0.05 ==> s == interval)
  {
    Max(interval, 0.05)
  }

  function Ceil(x: real): int {
    -((-x).Floor)
  }

  /** A sleep lasts at least as long as asked, and the clock never runs backwards. */
  ghost predicate Clocked(polls: nat -> Poll, start: real, pause: real) {
    polls(0).clock >= start && forall i: nat :: polls(i + 1).clock >= polls(i).clock + pause
  }

  /** The tasks other than the excluded one. */
  function OtherTasks(tasks: seq<Task>, exclude: string): (r: seq<Task>)
    ensures forall t :: t in r <==> t in tasks && t.key != exclude
  {
    if tasks == [] then []
    else if tasks[0].key != exclude then [tasks[0]] + OtherTasks(tasks[1..], exclude)
    else OtherTasks(tasks[1..], exclude)
  }

  /** Ascending places, just those of the tasks with another key. */
  predicate PlacesOfOthers(places: seq<nat>, tasks: seq<Task>, exclude: string) {
    && (forall k :: 0 <= k < |places| ==> places[k] < |tasks|)
    && (forall j, k :: 0 <= j < k < |places| ==> places[j] < places[k])
    && (forall i: nat :: i < |tasks| ==> (i in places <==> tasks[i].key != exclude))
  }

  lemma PlacesGrow(places: seq<nat>, tasks: seq<Task>, t: Task, exclude: string)
    requires PlacesOfOthers(places, tasks, exclude)
    ensures PlacesOfOthers(if t.key != exclude then places + [|tasks|] else places, tasks + [t], exclude)
  {
    assert forall i: nat :: i in places + [|tasks|] <==> i in places || i == |tasks|;
  }

  predicate Picked(others: seq<Task>, tasks: seq<Task>, places: seq<nat>) {
    |others| == |places| && forall k :: 0 <= k < |places| ==> places[k] < |tasks| && others[k] == tasks[places[k]]
  }

  lemma PicksGrow(others: seq<Task>, tasks: seq<Task>, places: seq<nat>, t: Task)
    requires Picked(others, tasks, places)
    ensures Picked(others, tasks + [t], places) && Picked(others + [t], tasks + [t], places + [|tasks|])
  {}

  /** The tasks handed back are the turn's, in its order, at just the places that hold another key. */
  lemma {:induction false} OthersInOrder(tasks: seq<Task>, exclude: string) returns (places: seq<nat>)
    ensures PlacesOfOthers(places, tasks, exclude) && Picked(OtherTasks(tasks, exclude), tasks, places)
  {
    if tasks == [] { return []; }
    var init, t := tasks[..|tasks| - 1], tasks[|tasks| - 1];
    assert init + [t] == tasks;
    places := OthersInOrder(init, exclude);
    OthersAppend(init, t, exclude);
    PlacesGrow(places, init, t, exclude);
    PicksGrow(OtherTasks(init, exclude), init, places, t);
    if t.key != exclude { places := places + [|init|]; }
  }

  lemma {:induction false} OthersAppend(tasks: seq<Task>, t: Task, exclude: string)
    ensures OtherTasks(tasks + [t], exclude)
      == OtherTasks(tasks, exclude) + if t.key != exclude then [t] else []
  {
    if tasks != [] {
      assert (tasks + [t])[1..] == tasks[1..] + [t];
      OthersAppend(tasks[1..], t, exclude);
    }
  }

  predicate Ended(p: Poll) {
    p.state == "COMPLETED" || p.state == "TERMINATED"
  }

  /** The process moved on: it ended, or it waits for a task the caller does not know yet. */
  predicate MovedOn(p: Poll, exclude: string) {
    Ended(p) || exists t :: t in p.tasks && t.key != exclude
  }

  /** The last non-empty snapshot of the first `n` turns; nothing if every one was empty. */
  ghost predicate LastSnapshot(polls: nat -> Poll, n: nat, variables: Record) {
    if variables == map[] then forall i: nat :: i < n ==> polls(i).variables == map[]
    else exists j: nat :: LastAt(polls, n, j, variables)
  }

  ghost predicate LastAt(polls: nat -> Poll, n: nat, j: nat, variables: Record) {
    j < n && polls(j).variables == variables && forall i: nat :: j < i < n ==> polls(i).variables == map[]
  }

  /** The loop stopped at turn `n - 1` with this outcome. */
  ghost predicate StopsAt(polls: nat -> Poll, n: nat, exclude: string, deadline: real, r: Outcome) {
    && n >= 1
    && (forall i: nat :: i < n - 1 ==> !MovedOn(polls(i), exclude) && polls(i).clock < deadline)
    && Decides(polls(n - 1), exclude, deadline, r)
    && LastSnapshot(polls, n, r.variables)
  }

  /** What a turn that ends the wait answers. */
  predicate Decides(p: Poll, exclude: string, deadline: real, r: Outcome) {
    && r.Settled() == MovedOn(p, exclude)
    && (r.reason.Timeout? ==> p.clock >= deadline)
    && (r.reason.Completed? <==> p.state == "COMPLETED")
    && (r.reason.Terminated? <==> p.state == "TERMINATED")
    && r.tasks == (if r.reason.UserTask? then OtherTasks(p.tasks, exclude) else [])
    && (r.reason.UserTask? ==> r.tasks != [])
    && !r.reason.Disabled?
  }

  /** One turn: an answer, or none and the wait goes on. */
  method Decide(p: Poll, exclude: string, deadline: real, variables: Record) returns (r: Option<Outcome>)
    ensures r.None? ==> !MovedOn(p, exclude) && p.clock < deadline
    ensures r.Some? ==> Decides(p, exclude, deadline, r.value) && r.value.variables == variables
  {
    OthersMoveOn(p, exclude);
    if Ended(p) { return Some(Outcome(if p.state == "COMPLETED" then Completed else Terminated, [], variables)); }
    var others := OtherTasks(p.tasks, exclude);
    if others != [] { return Some(Outcome(UserTask, others, variables)); }
    if p.clock >= deadline { return Some(Outcome(Timeout, [], variables)); }
    r := None;
  }

  lemma {:induction false} OthersMoveOn(p: Poll, exclude: string)
    ensures MovedOn(p, exclude) <==> Ended(p) || OtherTasks(p.tasks, exclude) != []
  {
    var others := OtherTasks(p.tasks, exclude);
    if others != [] { assert others[0] in others; }
  }

  /** The least time that has passed after so many pauses. */
  ghost function Slept(turns: nat, pause: real): real {
    if turns == 0 then 0.0 else Slept(turns - 1, pause) + pause
  }

  lemma {:induction false} SleptIs(turns: nat, pause: real)
    ensures Slept(turns, pause) == turns as real * pause
  {
    if turns > 0 { SleptIs(turns - 1, pause); }
  }

  lemma QuotientExceeds(k: real, timeout: real, pause: real)
    requires pause > 0.0 && k * pause < timeout
    ensures k < timeout / pause
  {
    var x := timeout / pause;
    assert x * pause == timeout;
    assert k * pause < x * pause;
  }

  /** While the deadline is not reached, few turns can have passed. */
  lemma TurnsLeft(turns: nat, timeout: real, pause: real)
    requires pause > 0.0 && timeout >= 0.0 && (turns > 0 ==> Slept(turns - 1, pause) < timeout)
    ensures turns <= Ceil(timeout / pause)
  {
    if turns > 0 {
      SleptIs(turns - 1, pause);
      QuotientExceeds((turns - 1) as real, timeout, pause);
    }
  }

  lemma SnapshotKept(polls: nat -> Poll, n: nat, variables: Record)
    requires LastSnapshot(polls, n, variables)
    ensures LastSnapshot(polls, n + 1, if polls(n).variables != map[] then polls(n).variables else variables)
  {
    if polls(n).variables != map[] {
      assert LastAt(polls, n + 1, n, polls(n).variables);
    } else if variables != map[] {
      var j: nat :| LastAt(polls, n, j, variables);
      assert LastAt(polls, n + 1, j, variables);
    }
  }

  /** `wait_until_settled`. */
  method WaitUntilSettled(enabled: bool, process: string, exclude: string, timeout: real, interval: real, start: real,
      polls: nat -> Poll) returns (r: Outcome, n: nat)
    requires Clocked(polls, start, Pause(interval))
    ensures !enabled || process == "" ==> n == 0 && r == Outcome(Disabled, [], map[])
    ensures enabled && process != "" ==> StopsAt(polls, n, exclude, start + Max(timeout, 0.0), r)
    ensures n <= Ceil(Max(timeout, 0.0) / Pause(interval)) + 1
  {
    var wait, pause := Max(timeout, 0.0), Pause(interval);
    TurnsLeft(0, wait, pause);
    if !enabled || process == "" { return Outcome(Disabled, [], map[]), 0; }
    var variables: Record := map[];
    n := 0;
    while true
      invariant forall i: nat :: i < n ==> !MovedOn(polls(i), exclude) && polls(i).clock < start + wait
      invariant n > 0 ==> Slept(n - 1, pause) < wait
      invariant polls(n).clock >= start + Slept(n, pause)
      invariant LastSnapshot(polls, n, variables)
      decreases Ceil(wait / pause) + 1 - n
    {
      var p := polls(n);
      TurnsLeft(n, wait, pause);
      SnapshotKept(polls, n, variables);
      n := n + 1;
      if p.variables != map[] { variables := p.variables; }
      var answer := Decide(p, exclude, start + wait, variables);
      if answer.Some? { return answer.value, n; }
    }
  }

  lemma SnapshotUnique(polls: nat -> Poll, n: nat, a: Record, b: Record)
    requires LastSnapshot(polls, n, a) && LastSnapshot(polls, n, b)
    ensures a == b
  {
    if a != map[] {
      var j: nat :| LastAt(polls, n, j, a);
      if b != map[] {
        var k: nat :| LastAt(polls, n, k, b);
        if j != k { assert j < k ==> polls(k).variables == map[]; }
      }
    }
  }

  /** A longer wait reads at least as many turns, and an answer found in time is the same answer. */
  lemma WaitLonger(polls: nat -> Poll, exclude: string, deadline: real, n: nat, r: Outcome,
      later: real, n': nat, r': Outcome)
    requires StopsAt(polls, n, exclude, deadline, r) && StopsAt(polls, n', exclude, later, r') && deadline <= later
    ensures n <= n'
    ensures r.Settled() || n == n' ==> n' == n && r' == r
  {
    var last, last': nat := n - 1, n' - 1;
    assert n' < n ==> !MovedOn(polls(last'), exclude) && polls(last').clock < deadline;
    assert n < n' ==> !MovedOn(polls(last), exclude);
    if n == n' { SnapshotUnique(polls, n, r.variables, r'.variables); }
  }
}
