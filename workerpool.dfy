/**
 * The bookkeeping of `WorkerPool` (spider/workers/manager.py): worker ids,
 * the tracked worker list and the id table, and how the pool reconciles the
 * number of live workers with the shared target. A worker process is
 * abstracted to its id and an `alive` flag in a process table that starting
 * sets and stopping clears.
 */
module WorkerPool {

  /** Ids in strictly increasing order, as ids handed out from a counter are. */
  predicate Increasing(ws: seq<nat>) {
    forall i, j :: 0 <= i < j < |ws| ==> ws[i] < ws[j]
  }

  predicate IsAlive(alive: map<nat, bool>, w: nat) {
    w in alive && alive[w]
  }

  /** `[w for w in ws if w.is_alive()]`. */
  function AliveOf(ws: seq<nat>, alive: map<nat, bool>): (r: seq<nat>)
    ensures |r| <= |ws|
  {
    if ws == [] then []
    else
      var init := AliveOf(ws[..|ws| - 1], alive);
      if IsAlive(alive, ws[|ws| - 1]) then init + [ws[|ws| - 1]] else init
  }

  /** The live part holds exactly the listed workers that are alive. */
  lemma {:induction false} AliveOfMembers(ws: seq<nat>, alive: map<nat, bool>)
    ensures forall w :: w in AliveOf(ws, alive) <==> w in ws && IsAlive(alive, w)
  {
    if ws != [] {
      AliveOfMembers(ws[..|ws| - 1], alive);
      assert forall x :: x in ws <==> x in ws[..|ws| - 1] || x == ws[|ws| - 1];
    }
  }

  /** The ids `lo, …, lo + n - 1` as a set. */
  function Ids(lo: nat, n: nat): (r: set<nat>)
    ensures forall w :: w in r <==> lo <= w < lo + n
  {
    if n == 0 then {} else Ids(lo, n - 1) + {lo + n - 1}
  }

  /** Starting the worker with the next id extends the id set by one. */
  lemma IdsStep(lo: nat, k: nat)
    ensures Ids(lo, k) + {lo + k} == Ids(lo, k + 1)
  {
  }

  /** The table after `n` new workers with ids from `lo` are started. */
  function Launched(alive: map<nat, bool>, lo: nat, n: nat): (r: map<nat, bool>)
    ensures forall w :: w in r <==> w in alive || lo <= w < lo + n
    ensures forall w :: w in r ==> r[w] == (lo <= w < lo + n || alive[w])
  {
    map w | w in alive.Keys + Ids(lo, n) :: if lo <= w < lo + n then true else alive[w]
  }

  /** Starting the worker with the next id extends the launched table by one. */
  lemma LaunchedStep(alive: map<nat, bool>, lo: nat, k: nat)
    ensures Launched(alive, lo, k)[lo + k := true] == Launched(alive, lo, k + 1)
  {
    assert lo + k == Range(lo, k + 1)[k];
  }

  /** `worker.stop()` on each of `ids` in turn. */
  method StopEach(table: map<nat, bool>, ids: seq<nat>) returns (r: map<nat, bool>)
    requires forall w :: w in ids ==> w in table
    ensures r == Stopped(table, ids)
  {
    r := table;
    for i := 0 to |ids|
      invariant r == Stopped(table, ids[..i])
    {
      assert ids[..i + 1] == ids[..i] + [ids[i]];
      r := r[ids[i] := false];
    }
    assert ids[..|ids|] == ids;
  }

  /** The ids `lo, lo + 1, …, lo + n - 1`. */
  function Range(lo: nat, n: nat): (r: seq<nat>)
    ensures |r| == n && forall i :: 0 <= i < n ==> r[i] == lo + i
  {
    seq(n, i requires 0 <= i < n => lo + i)
  }

  /** The process table after `worker.stop()` on each of `ids`. */
  function Stopped(alive: map<nat, bool>, ids: seq<nat>): (r: map<nat, bool>)
    ensures r.Keys == alive.Keys
    ensures forall w :: w in alive ==> r[w] == (alive[w] && w !in ids)
  {
    map w | w in alive :: if w in ids then false else alive[w]
  }

  /** The last `n` elements of `s`, as `s[-n:]` with `n > 0` gives them (all of `s` when `n >= |s|`). */
  function LastN(s: seq<nat>, n: nat): (r: seq<nat>)
    requires n > 0
    ensures |r| == if n < |s| then n else |s|
    ensures r == s[|s| - |r|..]
  {
    if n < |s| then s[|s| - n..] else s
  }

  /** The elements of `s` that are not in `t`, in order. */
  function Without(s: seq<nat>, t: seq<nat>): (r: seq<nat>)
    ensures |r| <= |s|
  {
    if s == [] then []
    else
      var init := Without(s[..|s| - 1], t);
      if s[|s| - 1] in t then init else init + [s[|s| - 1]]
  }

  /** The live part of an id-ordered list is id-ordered. */
  lemma {:induction false} AliveOfIncreasing(ws: seq<nat>, alive: map<nat, bool>)
    requires Increasing(ws)
    ensures Increasing(AliveOf(ws, alive))
  {
    if ws != [] {
      var init := ws[..|ws| - 1];
      AliveOfIncreasing(init, alive);
      AliveOfMembers(init, alive);
      var r := AliveOf(init, alive);
      forall i | 0 <= i < |r| ensures r[i] < ws[|ws| - 1] {
        assert r[i] in init;
      }
    }
  }

  /** Stopping some live workers leaves exactly the others alive, in order. */
  lemma {:induction false} AliveAfterStop(ws: seq<nat>, alive: map<nat, bool>, ids: seq<nat>)
    requires forall w :: w in ws ==> w in alive
    ensures AliveOf(ws, Stopped(alive, ids)) == Without(AliveOf(ws, alive), ids)
  {
    if ws != [] {
      var init := ws[..|ws| - 1];
      AliveAfterStop(init, alive, ids);
      var w := ws[|ws| - 1];
      if IsAlive(alive, w) {
        assert AliveOf(ws, alive)[..|AliveOf(ws, alive)| - 1] == AliveOf(init, alive);
      }
    }
  }

  /** Removing a suffix of distinct elements leaves the prefix before it. */
  lemma {:induction false} WithoutSuffix(s: seq<nat>, k: nat, n: nat)
    requires Increasing(s) && k <= |s| && n <= |s|
    ensures Without(s[..n], s[k..]) == s[..if n < k then n else k]
  {
    if n > 0 {
      WithoutSuffix(s, k, n - 1);
      WithoutSnoc(s, n, s[k..]);
      var last := s[n - 1];
      if n - 1 < k {
        forall j | 0 <= j < |s| - k
          ensures s[k..][j] != last
        {
          assert s[k..][j] == s[k + j];
        }
        assert s[..n - 1] + [last] == s[..n];
      } else {
        assert last == s[k..][n - 1 - k];
      }
    }
  }

  /** `Without` on a prefix one longer: the new last element is dropped when it is in `t`, kept otherwise. */
  lemma WithoutSnoc(s: seq<nat>, n: nat, t: seq<nat>)
    requires 0 < n <= |s|
    ensures Without(s[..n], t) ==
      if s[n - 1] in t then Without(s[..n - 1], t) else Without(s[..n - 1], t) + [s[n - 1]]
  {
    assert s[..n][..n - 1] == s[..n - 1];
  }

  /** Stopping the last `excess` live workers of an id-ordered list leaves the others alive. */
  lemma StopLastKeepsFirst(ws: seq<nat>, alive: map<nat, bool>, excess: nat)
    requires Increasing(ws) && excess > 0
    requires forall w :: w in ws ==> w in alive
    ensures var live := AliveOf(ws, alive);
      var rest := AliveOf(ws, Stopped(alive, LastN(live, excess)));
      rest == live[..|live| - |LastN(live, excess)|]
      && |rest| == (if excess < |live| then |live| - excess else 0)
  {
    var live := AliveOf(ws, alive);
    AliveOfIncreasing(ws, alive);
    AliveAfterStop(ws, alive, LastN(live, excess));
    var k := |live| - |LastN(live, excess)|;
    WithoutSuffix(live, k, |live|);
    assert live[..|live|] == live;
  }

  /** Filtering an already filtered list changes nothing. */
  lemma {:induction false} AliveOfTwice(ws: seq<nat>, alive: map<nat, bool>)
    requires forall w :: w in ws ==> IsAlive(alive, w)
    ensures AliveOf(ws, alive) == ws
  {
    if ws != [] {
      AliveOfTwice(ws[..|ws| - 1], alive);
    }
  }

  /** Starting a fresh worker adds one live worker to the count. */
  lemma AliveOfFresh(ws: seq<nat>, alive: map<nat, bool>, id: nat)
    requires id !in ws
    ensures AliveOf(ws + [id], alive[id := true]) == AliveOf(ws, alive) + [id]
  {
    assert (ws + [id])[..|ws|] == ws;
    AliveOfUpdateOther(ws, alive, id, true);
  }

  /** The liveness of a worker outside the list does not affect the list's live part. */
  lemma {:induction false} AliveOfUpdateOther(ws: seq<nat>, alive: map<nat, bool>, id: nat, b: bool)
    requires id !in ws
    ensures AliveOf(ws, alive[id := b]) == AliveOf(ws, alive)
  {
    if ws != [] {
      AliveOfUpdateOther(ws[..|ws| - 1], alive, id, b);
    }
  }

  /**
   * The pool's worker bookkeeping: the tracked list `workers`, the keys of
   * `worker_processes`, the process table and the counter `next_worker_id`.
   */
  datatype Roster = Roster(workers: seq<nat>, processes: set<nat>, alive: map<nat, bool>, nextId: nat)

  /**
   * Ids come from the counter: every id in the process table is below it,
   * the tracked workers are in the table, and the list is ordered by id.
   */
  ghost predicate RosterValid(r: Roster) {
    && Increasing(r.workers)
    && (forall w: nat :: w in r.alive ==> w < r.nextId)
    && (forall w :: w in r.workers ==> w in r.alive)
    && r.processes <= r.alive.Keys
  }

  /** `start_new_worker` on the bookkeeping: the next id is tracked in the list and the table, then the counter moves on. */
  function Launch(r: Roster): Roster {
    Roster(r.workers + [r.nextId], r.processes + {r.nextId}, r.alive[r.nextId := true], r.nextId + 1)
  }

  /** `n` workers started one after the other. */
  function LaunchN(r: Roster, n: nat): Roster {
    if n == 0 then r else Launch(LaunchN(r, n - 1))
  }

  /** Starting `n` workers hands out the next `n` ids, appended to the list in order. */
  lemma {:induction false} LaunchNShape(r: Roster, n: nat)
    ensures LaunchN(r, n).nextId == r.nextId + n
    ensures LaunchN(r, n).workers == r.workers + Range(r.nextId, n)
  {
    if n > 0 {
      LaunchNShape(r, n - 1);
      WorkersStep(r, LaunchN(r, n - 1), LaunchN(r, n), n - 1);
    }
  }

  lemma WorkersStep(r: Roster, p: Roster, q: Roster, k: nat)
    requires p.nextId == r.nextId + k && p.workers == r.workers + Range(r.nextId, k)
    requires q == Launch(p)
    ensures q.nextId == r.nextId + k + 1 && q.workers == r.workers + Range(r.nextId, k + 1)
  {
    RangeStep(r.nextId, k);
    assert (r.workers + Range(r.nextId, k)) + [p.nextId] == r.workers + (Range(r.nextId, k) + [p.nextId]);
  }

  /** Starting `n` workers enters each new id in the process table, marked alive; older entries are kept. */
  lemma {:induction false} LaunchNTable(r: Roster, n: nat)
    ensures LaunchN(r, n).processes == r.processes + Ids(r.nextId, n)
    ensures LaunchN(r, n).alive == Launched(r.alive, r.nextId, n)
  {
    if n > 0 {
      LaunchNTable(r, n - 1);
      LaunchNNext(r, n - 1);
      TableStep(r, LaunchN(r, n - 1), LaunchN(r, n), n);
    }
  }

  /** Starting `n` workers moves the id counter on by `n`. */
  lemma {:induction false} LaunchNNext(r: Roster, n: nat)
    ensures LaunchN(r, n).nextId == r.nextId + n
  {
    if n > 0 {
      LaunchNNext(r, n - 1);
    }
  }

  lemma TableStep(r: Roster, p: Roster, q: Roster, n: nat)
    requires n > 0 && p.nextId == r.nextId + (n - 1)
    requires p.processes == r.processes + Ids(r.nextId, n - 1) && p.alive == Launched(r.alive, r.nextId, n - 1)
    requires q == Launch(p)
    ensures q.processes == r.processes + Ids(r.nextId, n) && q.alive == Launched(r.alive, r.nextId, n)
  {
    var lo, k := r.nextId, n - 1;
    LaunchedStep(r.alive, lo, k);
    IdsStep(lo, k);
    assert q.alive == Launched(r.alive, lo, k)[lo + k := true];
    assert q.processes == r.processes + (Ids(lo, k) + {lo + k});
  }

  /** Starting one worker keeps the bookkeeping consistent and adds one live worker. */
  lemma LaunchFacts(r: Roster)
    requires RosterValid(r)
    ensures RosterValid(Launch(r))
    ensures |AliveOf(Launch(r).workers, Launch(r).alive)| == |AliveOf(r.workers, r.alive)| + 1
  {
    forall i | 0 <= i < |r.workers| ensures r.workers[i] < r.nextId {
      assert r.workers[i] in r.alive;
    }
    IncreasingAppend(r.workers, r.nextId);
    AliveOfFresh(r.workers, r.alive, r.nextId);
  }

  lemma IncreasingAppend(ws: seq<nat>, x: nat)
    requires Increasing(ws) && forall i :: 0 <= i < |ws| ==> ws[i] < x
    ensures Increasing(ws + [x])
  {
  }

  lemma RangeStep(lo: nat, k: nat)
    ensures Range(lo, k + 1) == Range(lo, k) + [lo + k]
  {
  }

  /** Starting `n` workers keeps the bookkeeping consistent and adds exactly `n` live workers. */
  lemma {:induction false} LaunchNFacts(r: Roster, n: nat)
    requires RosterValid(r)
    ensures RosterValid(LaunchN(r, n))
    ensures |AliveOf(LaunchN(r, n).workers, LaunchN(r, n).alive)| == |AliveOf(r.workers, r.alive)| + n
  {
    if n > 0 {
      LaunchNFacts(r, n - 1);
      LaunchStep(r, LaunchN(r, n - 1), LaunchN(r, n), n);
    }
  }

  lemma LaunchStep(r: Roster, p: Roster, q: Roster, n: nat)
    requires n > 0 && RosterValid(p) && |AliveOf(p.workers, p.alive)| == |AliveOf(r.workers, r.alive)| + (n - 1)
    requires q == Launch(p)
    ensures RosterValid(q) && |AliveOf(q.workers, q.alive)| == |AliveOf(r.workers, r.alive)| + n
  {
    LaunchFacts(p);
  }

  /**
   * The shrinking branch of `adjust_worker_count`: the last `excess` live
   * workers are stopped and the list keeps only live workers.
   */
  function StopExcess(r: Roster, excess: nat): Roster
    requires excess > 0
  {
    var table := Stopped(r.alive, LastN(AliveOf(r.workers, r.alive), excess));
    Roster(AliveOf(r.workers, table), r.processes, table, r.nextId)
  }

  /** Stopping the excess leaves the first live workers, in order, all alive. */
  lemma StopExcessFacts(r: Roster, excess: nat)
    requires RosterValid(r) && excess > 0
    ensures var live := AliveOf(r.workers, r.alive);
      var r' := StopExcess(r, excess);
      && RosterValid(r')
      && r'.workers == live[..|live| - |LastN(live, excess)|]
      && |AliveOf(r'.workers, r'.alive)| == (if excess < |live| then |live| - excess else 0)
  {
    var live := AliveOf(r.workers, r.alive);
    var doomed := LastN(live, excess);
    var table := Stopped(r.alive, doomed);
    StopLastKeepsFirst(r.workers, r.alive, excess);
    AliveOfIncreasing(r.workers, table);
    AliveOfMembers(r.workers, table);
    AliveOfTwice(AliveOf(r.workers, table), table);
  }

  /**
   * `adjust_worker_count` on the bookkeeping: stop the excess live workers,
   * start the missing ones, or leave everything as it is.
   */
  function Adjusted(r: Roster, target: int): Roster {
    var live := AliveOf(r.workers, r.alive);
    if |live| > target then StopExcess(r, |live| - target)
    else if |live| < target then LaunchN(r, target - |live|)
    else r
  }

  /** What `get_worker_status` reports. */
  datatype Status = Status(targetWorkers: int, activeWorkers: int, aliveWorkers: nat,
                           totalWorkersCreated: nat, currentDelay: real)

  class Pool {
    var roster: Roster
    /** The `None` sentinels put on the task queue. */
    var sentinels: nat
    var isRunning: bool
    /** The shared values `target_workers`, `current_delay` and `active_workers`. */
    var targetWorkers: int
    var currentDelay: real
    var activeWorkers: int

    ghost predicate Valid()
      reads this
    {
      RosterValid(roster)
    }

    constructor (targetWorkers: int, currentDelay: real)
      ensures Valid() && roster == Roster([], {}, map[], 0)
      ensures sentinels == 0 && !isRunning && activeWorkers == 0
      ensures this.targetWorkers == targetWorkers && this.currentDelay == currentDelay
    {
      roster := Roster([], {}, map[], 0);
      sentinels, isRunning, activeWorkers := 0, false, 0;
      this.targetWorkers, this.currentDelay := targetWorkers, currentDelay;
    }

    /** `start_new_worker`. */
    method StartNewWorker() returns (id: nat)
      requires Valid()
      modifies this
      ensures Valid() && id == old(roster.nextId) && roster == Launch(old(roster))
      ensures sentinels == old(sentinels) && isRunning == old(isRunning) && activeWorkers == old(activeWorkers)
      ensures targetWorkers == old(targetWorkers) && currentDelay == old(currentDelay)
    {
      id := roster.nextId;
      var r := Launch(roster);
      LaunchFacts(roster);
      assert RosterValid(r);
      roster := r;
    }

    /** `start`: the shared values take the rate controller's settings and that many workers are started. */
    method Start(rateWorkers: int, rateDelay: real) returns (started: seq<nat>)
      requires Valid()
      modifies this
      ensures Valid() && isRunning && activeWorkers == 0
      ensures targetWorkers == rateWorkers && currentDelay == rateDelay
      ensures roster == LaunchN(old(roster), if rateWorkers > 0 then rateWorkers else 0)
      ensures started == roster.workers && sentinels == old(sentinels)
    {
      isRunning, activeWorkers := true, 0;
      currentDelay, targetWorkers := rateDelay, rateWorkers;
      var n := if targetWorkers > 0 then targetWorkers else 0;
      for k := 0 to n
        invariant Valid() && roster == LaunchN(old(roster), k)
        invariant isRunning && activeWorkers == 0 && sentinels == old(sentinels)
        invariant targetWorkers == rateWorkers && currentDelay == rateDelay
      {
        var id := StartNewWorker();
      }
      started := roster.workers;
    }

    /**
     * `stop`: one sentinel per tracked worker, every tracked worker stopped,
     * and both the list and the table emptied.
     */
    method Stop()
      requires Valid()
      modifies this
      ensures Valid() && !isRunning
      ensures sentinels == old(sentinels) + |old(roster.workers)|
      ensures roster == Roster([], {}, Stopped(old(roster.alive), old(roster.workers)), old(roster.nextId))
      ensures targetWorkers == old(targetWorkers) && currentDelay == old(currentDelay)
    {
      isRunning := false;
      sentinels := sentinels + |roster.workers|;
      var table := StopEach(roster.alive, roster.workers);
      roster := Roster([], {}, table, roster.nextId);
    }

    /**
     * The shrinking branch of `adjust_worker_count`: the last `excess` live
     * workers are stopped, then the list keeps only live workers.
     */
    method StopWorkers(excess: nat)
      requires Valid() && excess > 0
      modifies this
      ensures Valid() && roster == StopExcess(old(roster), excess)
      ensures targetWorkers == old(targetWorkers) && currentDelay == old(currentDelay)
      ensures sentinels == old(sentinels)
    {
      var live := AliveOf(roster.workers, roster.alive);
      var doomed := LastN(live, excess);
      AliveOfMembers(roster.workers, roster.alive);
      assert forall w :: w in doomed ==> w in live;
      var table := StopEach(roster.alive, doomed);
      var r := Roster(AliveOf(roster.workers, table), roster.processes, table, roster.nextId);
      StopExcessFacts(roster, excess);
      assert RosterValid(r);
      roster := r;
    }

    /** The growing branch of `adjust_worker_count`: `n` workers are started one after the other. */
    method StartWorkers(n: nat)
      requires Valid()
      modifies this
      ensures Valid() && roster == LaunchN(old(roster), n)
      ensures targetWorkers == old(targetWorkers) && currentDelay == old(currentDelay)
      ensures sentinels == old(sentinels)
    {
      for k := 0 to n
        invariant Valid() && roster == LaunchN(old(roster), k)
        invariant targetWorkers == old(targetWorkers) && currentDelay == old(currentDelay)
        invariant sentinels == old(sentinels)
      {
        var id := StartNewWorker();
      }
    }

    /**
     * `adjust_worker_count`: with more live workers than the target, the
     * last `alive - target` of them are stopped and the list keeps the live
     * ones; with fewer, `target - alive` new workers are started.
     */
    method AdjustWorkerCount()
      requires Valid()
      modifies this
      ensures Valid()
      ensures roster == Adjusted(old(roster), targetWorkers)
      ensures targetWorkers == old(targetWorkers) && currentDelay == old(currentDelay)
      ensures sentinels == old(sentinels)
    {
      var live := AliveOf(roster.workers, roster.alive);
      if |live| > targetWorkers {
        StopWorkers(|live| - targetWorkers);
      } else if |live| < targetWorkers {
        StartWorkers(targetWorkers - |live|);
      }
    }

    /** `get_worker_status`. */
    method GetWorkerStatus() returns (s: Status)
      ensures s.aliveWorkers == |AliveOf(roster.workers, roster.alive)| && s.totalWorkersCreated == roster.nextId
      ensures s.targetWorkers == targetWorkers && s.activeWorkers == activeWorkers
      ensures s.currentDelay == currentDelay
    {
      var live := AliveOf(roster.workers, roster.alive);
      s := Status(targetWorkers, activeWorkers, |live|, roster.nextId, currentDelay);
    }
  }

  /** A non-negative target is met exactly by `adjust_worker_count`, whichever branch runs. */
  lemma AdjustMeetsTarget(r: Roster, target: int)
    requires RosterValid(r) && target >= 0
    ensures RosterValid(Adjusted(r, target))
    ensures |AliveOf(Adjusted(r, target).workers, Adjusted(r, target).alive)| == target
  {
    var live := AliveOf(r.workers, r.alive);
    if |live| > target {
      StopExcessMeetsTarget(r, target);
    } else if |live| < target {
      LaunchNMeetsTarget(r, target);
    }
  }

  lemma StopExcessMeetsTarget(r: Roster, target: int)
    requires RosterValid(r) && 0 <= target < |AliveOf(r.workers, r.alive)|
    ensures Adjusted(r, target) == StopExcess(r, |AliveOf(r.workers, r.alive)| - target)
    ensures RosterValid(Adjusted(r, target))
    ensures |AliveOf(Adjusted(r, target).workers, Adjusted(r, target).alive)| == target
  {
    StopExcessFacts(r, |AliveOf(r.workers, r.alive)| - target);
  }

  lemma LaunchNMeetsTarget(r: Roster, target: int)
    requires RosterValid(r) && |AliveOf(r.workers, r.alive)| < target
    ensures Adjusted(r, target) == LaunchN(r, target - |AliveOf(r.workers, r.alive)|)
    ensures RosterValid(Adjusted(r, target))
    ensures |AliveOf(Adjusted(r, target).workers, Adjusted(r, target).alive)| == target
  {
    LaunchNFacts(r, target - |AliveOf(r.workers, r.alive)|);
  }
}
