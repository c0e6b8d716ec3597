/** The leader's routing table through submission, scaling and restarts of tasks. */
module Routing {
  import opened Arithmetic
  import opened Schedule

  /** The port of a task that was scheduled with the job. */
  function InitialPort(n: nat, s: nat, i: nat): nat {
    BASE_PORT + s * n + 2 * i
  }

  /** The port of a task that was added to a user stage later. */
  function AddedPort(n: nat, userStages: nat, s: nat, i: nat): nat
    requires s >= 1
  {
    BASE_PORT + n * (userStages + 1) + (s - 1) * 100 + i + 1000
  }

  /** The port of task `i` of stage `s`, of which the tasks from `added` on were added later. */
  function PortOf(n: nat, userStages: nat, s: nat, added: nat, i: nat): nat
    requires s >= 1
  {
    if i < added then InitialPort(n, s, i) else AddedPort(n, userStages, s, i)
  }

  /** No two tasks of a stage have the same port. */
  lemma PortsDiffer(n: nat, userStages: nat, s: nat, added: nat, i: nat, j: nat)
    requires 1 <= s <= userStages && added <= n && i < j
    ensures PortOf(n, userStages, s, added, i) != PortOf(n, userStages, s, added, j)
  {
    assert n * (userStages + 1) == s * n + (userStages - s) * n + n;
    assert (userStages - s) * n >= 0;
  }

  // ---------- one stage ----------

  type Tasks = map<TaskId, Address>

  /** The entries of a stage are the addresses of its tasks, one for each. */
  ghost predicate Routed(entries: seq<Address>, count: nat, tasks: Tasks, s: nat) {
    |entries| == count
    && forall i :: 0 <= i < count ==> TaskId(s, i) in tasks && entries[i] == tasks[TaskId(s, i)]
  }

  ghost predicate Ported(entries: seq<Address>, n: nat, userStages: nat, s: nat, added: nat)
    requires s >= 1
  {
    added <= n && forall i :: 0 <= i < |entries| ==> entries[i].port == PortOf(n, userStages, s, added, i)
  }

  predicate AllDifferent(entries: seq<Address>) {
    forall i, j :: 0 <= i < j < |entries| ==> entries[i] != entries[j]
  }

  lemma PortedDiffer(entries: seq<Address>, n: nat, userStages: nat, s: nat, added: nat)
    requires 1 <= s <= userStages && Ported(entries, n, userStages, s, added)
    ensures AllDifferent(entries)
    ensures PortsApart(entries)
  {
    forall i, j | 0 <= i < j < |entries| ensures entries[i].port != entries[j].port {
      PortsDiffer(n, userStages, s, added, i, j);
    }
  }

  // ---------- removing and replacing entries ----------

  function Remaining(entries: seq<Address>, target: Address): seq<Address> {
    if entries == [] then []
    else
      var before := Remaining(entries[..|entries| - 1], target);
      if entries[|entries| - 1] != target then before + [entries[|entries| - 1]] else before
  }

  lemma {:induction false} NothingRemoved(entries: seq<Address>, target: Address)
    requires target !in entries
    ensures Remaining(entries, target) == entries
  {
    if entries == [] {
    } else {
      NothingRemoved(entries[..|entries| - 1], target);
      assert entries == entries[..|entries| - 1] + [entries[|entries| - 1]];
    }
  }

  lemma LastRemoved(entries: seq<Address>)
    requires entries != [] && AllDifferent(entries)
    ensures Remaining(entries, entries[|entries| - 1]) == entries[..|entries| - 1]
  {
    assert entries[|entries| - 1] !in entries[..|entries| - 1];
    NothingRemoved(entries[..|entries| - 1], entries[|entries| - 1]);
  }

  /** The first entry equal to `old` is replaced; nothing happens if there is none. */
  function Replaced(entries: seq<Address>, was: Address, now: Address): (r: seq<Address>)
    ensures |r| == |entries|
  {
    if entries == [] then []
    else if entries[0] == was then [now] + entries[1..]
    else [entries[0]] + Replaced(entries[1..], was, now)
  }

  lemma {:induction false} ReplacedAt(entries: seq<Address>, i: nat, now: Address)
    requires i < |entries| && forall j :: 0 <= j < i ==> entries[j] != entries[i]
    ensures Replaced(entries, entries[i], now) == entries[i := now]
  {
    if i > 0 {
      assert entries[0] != entries[i];
      assert entries[1..][i - 1] == entries[i];
      ReplacedAt(entries[1..], i - 1, now);
      assert entries[i := now] == [entries[0]] + entries[1..][i - 1 := now];
    } else {
      assert entries[0 := now] == [now] + entries[1..];
    }
  }

  lemma {:induction false} ReplacedNot(entries: seq<Address>, was: Address, now: Address)
    requires was !in entries
    ensures Replaced(entries, was, now) == entries
  {
    if entries == [] {
    } else {
      ReplacedNot(entries[1..], was, now);
      assert entries == [entries[0]] + entries[1..];
    }
  }

  function EntriesOf(table: map<nat, seq<Address>>, s: nat): seq<Address> {
    if s in table then table[s] else []
  }

  function CountOf(counts: map<nat, nat>, s: nat): nat {
    if s in counts then counts[s] else 0
  }

  function ScaledCount(count: nat, up: bool): nat {
    if up then count + 1 else if count > 1 then count - 1 else count
  }

  function ScaledEntries(entries: seq<Address>, n: nat, userStages: nat, s: nat, count: nat, up: bool,
                         workers: seq<string>): seq<Address>
    requires s >= 1
  {
    if up then
      if workers == [] then entries
      else entries + [Address(workers[count % |workers|], AddedPort(n, userStages, s, count))]
    else if count > 1 && count == |entries| then entries[..count - 1]
    else entries
  }

  /** As many additions in a row as there are workers go to all different ones. */
  lemma AdditionsTakeTurns(n: nat, userStages: nat, s: nat, workers: seq<string>, entries: seq<Address>, more: seq<Address>, c: nat, d: nat)
    requires s >= 1 && workers != [] && AllWorkersDiffer(workers) && c < d < c + |workers|
    ensures Worker(ScaledEntries(entries, n, userStages, s, c, true, workers)) != Worker(ScaledEntries(more, n, userStages, s, d, true, workers))
  {
    if c % |workers| == d % |workers| {
      ResidueGap(c, d, |workers|);
    }
  }

  predicate AllWorkersDiffer(workers: seq<string>) {
    forall i, j :: 0 <= i < j < |workers| ==> workers[i] != workers[j]
  }

  function Worker(entries: seq<Address>): string {
    if entries == [] then "" else entries[|entries| - 1].worker
  }

  ghost predicate StageFine(entries: seq<Address>, count: nat, tasks: Tasks, n: nat, userStages: nat, s: nat, added: nat)
    requires s >= 1
  {
    Routed(entries, count, tasks, s) && Ported(entries, n, userStages, s, added) && count >= 1
  }

  // ---------- restarts ----------

  ghost predicate RestartOk(entries: seq<Address>, count: nat, tasks: Tasks, id: TaskId, vm: string, newWorker: string)
    requires id in tasks
  {
    if id.index < count then vm == tasks[id].worker || newWorker == tasks[id].worker
    else Address(vm, tasks[id].port) !in entries || newWorker == vm
  }

  predicate PortsApart(entries: seq<Address>) {
    forall i, j :: 0 <= i < j < |entries| ==> entries[i].port != entries[j].port
  }

  lemma RestartIff(entries: seq<Address>, count: nat, tasks: Tasks, id: TaskId, vm: string, newWorker: string)
    requires Routed(entries, count, tasks, id.stage) && PortsApart(entries) && id in tasks
    ensures var port := tasks[id].port;
      var now := Address(newWorker, port);
      Routed(Replaced(entries, Address(vm, port), now), count, tasks[id := now], id.stage)
      <==> RestartOk(entries, count, tasks, id, vm, newWorker)
  {
    var port := tasks[id].port;
    var was, now := Address(vm, port), Address(newWorker, port);
    var tasks' := tasks[id := now];
    if was in entries {
      var j :| 0 <= j < |entries| && entries[j] == was;
      ReplacedAt(entries, j, now);
      assert TaskId(id.stage, j) in tasks && tasks[TaskId(id.stage, j)] == was;
      RestartHit(entries, count, tasks, id, j, newWorker);
    } else {
      ReplacedNot(entries, was, now);
      RestartMiss(entries, count, tasks, id, newWorker);
    }
  }

  /** The report hits entry `j`. */
  lemma RestartHit(entries: seq<Address>, count: nat, tasks: Tasks, id: TaskId, j: nat, newWorker: string)
    requires Routed(entries, count, tasks, id.stage) && PortsApart(entries) && id in tasks
    requires j < count && entries[j].port == tasks[id].port
    ensures Routed(entries[j := Address(newWorker, entries[j].port)], count,
                   tasks[id := Address(newWorker, entries[j].port)], id.stage)
      <==> j == id.index || (id.index >= count && newWorker == entries[j].worker)
    ensures id.index < count ==> j == id.index
  {
    var e' := entries[j := Address(newWorker, entries[j].port)];
    var tasks' := tasks[id := Address(newWorker, entries[j].port)];
    assert TaskId(id.stage, j) in tasks && entries[j] == tasks[TaskId(id.stage, j)];
    if id.index < count {
      assert TaskId(id.stage, id.index) == id && entries[id.index] == tasks[id];
    }
    forall i | 0 <= i < count && i != j && i != id.index
      ensures TaskId(id.stage, i) in tasks' && e'[i] == tasks'[TaskId(id.stage, i)]
    {
      assert entries[i] == tasks[TaskId(id.stage, i)];
    }
    if Routed(e', count, tasks', id.stage) {
      assert e'[j] == tasks'[TaskId(id.stage, j)];
    }
  }

  /** The report hits no entry. */
  lemma RestartMiss(entries: seq<Address>, count: nat, tasks: Tasks, id: TaskId, newWorker: string)
    requires Routed(entries, count, tasks, id.stage) && id in tasks
    ensures Routed(entries, count, tasks[id := Address(newWorker, tasks[id].port)], id.stage)
      <==> id.index < count ==> newWorker == tasks[id].worker
  {
    var tasks' := tasks[id := Address(newWorker, tasks[id].port)];
    if id.index < count {
      assert TaskId(id.stage, id.index) == id && entries[id.index] == tasks[id];
      if Routed(entries, count, tasks', id.stage) {
        assert entries[id.index] == tasks'[TaskId(id.stage, id.index)];
      }
    }
    forall i | 0 <= i < count && i != id.index
      ensures TaskId(id.stage, i) in tasks' && entries[i] == tasks'[TaskId(id.stage, i)]
    {
      assert entries[i] == tasks[TaskId(id.stage, i)];
    }
  }

  /** Replacing an entry by one with the same port leaves the ports as they are. */
  lemma {:induction false} ReplacedPorts(entries: seq<Address>, port: nat, vm: string, newWorker: string, i: nat)
    requires i < |entries|
    ensures Replaced(entries, Address(vm, port), Address(newWorker, port))[i].port == entries[i].port
  {
    if i == 0 || entries[0] == Address(vm, port) {
    } else {
      ReplacedPorts(entries[1..], port, vm, newWorker, i - 1);
    }
  }

  lemma ReplacedPorted(entries: seq<Address>, n: nat, userStages: nat, s: nat, added: nat, port: nat, vm: string, newWorker: string)
    requires s >= 1 && Ported(entries, n, userStages, s, added)
    ensures Ported(Replaced(entries, Address(vm, port), Address(newWorker, port)), n, userStages, s, added)
  {
    forall i | 0 <= i < |entries|
      ensures Replaced(entries, Address(vm, port), Address(newWorker, port))[i].port == PortOf(n, userStages, s, added, i)
    {
      ReplacedPorts(entries, port, vm, newWorker, i);
    }
  }

  lemma RestartStage(entries: seq<Address>, count: nat, tasks: Tasks, n: nat, userStages: nat, added: nat,
                     id: TaskId, vm: string, newWorker: string)
    requires 1 <= id.stage <= userStages && id in tasks
    requires StageFine(entries, count, tasks, n, userStages, id.stage, added)
    ensures var port := tasks[id].port;
      var now := Address(newWorker, port);
      StageFine(Replaced(entries, Address(vm, port), now), count, tasks[id := now], n, userStages, id.stage, added)
      <==> RestartOk(entries, count, tasks, id, vm, newWorker)
  {
    PortedDiffer(entries, n, userStages, id.stage, added);
    RestartIff(entries, count, tasks, id, vm, newWorker);
    ReplacedPorted(entries, n, userStages, id.stage, added, tasks[id].port, vm, newWorker);
  }

  lemma OtherStage(entries: seq<Address>, count: nat, tasks: Tasks, n: nat, userStages: nat, s: nat, added: nat,
                   id: TaskId, now: Address)
    requires s >= 1 && s != id.stage && StageFine(entries, count, tasks, n, userStages, s, added)
    ensures StageFine(entries, count, tasks[id := now], n, userStages, s, added)
  {}

  // ---------- the leader ----------

  class Leader {
    var n: nat
    var userStages: nat
    var routing: map<nat, seq<Address>>
    var stageTaskCount: map<nat, nat>
    var allTasks: Tasks
    ghost var added: map<nat, nat>

    ghost predicate StageOk(s: nat)
      requires s >= 1
      reads this
    {
      s in routing && s in stageTaskCount && s in added
      && StageFine(routing[s], stageTaskCount[s], allTasks, n, userStages, s, added[s])
    }

    /** For every user stage: the routing table lists the addresses of exactly its current tasks, by
        index; the ports are those assigned. */
    ghost predicate Valid()
      reads this
    {
      forall s: nat :: 1 <= s <= userStages ==> StageOk(s)
    }

    constructor ()
      ensures Valid() && userStages == 0
    {
      n, userStages, routing, stageTaskCount, allTasks, added := 0, 0, map[], map[], map[], map[];
    }

    /** Schedules a new job and builds its tables. */
    method Submit(workers: seq<string>, numTasks: nat, stages: nat) returns (ok: bool)
      requires numTasks >= 1 && Valid()
      modifies this
      ensures Valid()
      ensures ok <==> workers != []
      ensures ok ==> n == numTasks && userStages == stages
      ensures ok ==> forall s: nat :: s <= stages ==> s in routing && PlannedStage(workers, numTasks, s, routing[s])
      ensures ok ==> forall s :: 1 <= s <= stages ==> s in stageTaskCount && stageTaskCount[s] == numTasks
      ensures !ok ==> n == old(n) && userStages == old(userStages)
      ensures !ok ==> routing == old(routing) && stageTaskCount == old(stageTaskCount) && allTasks == old(allTasks)
    {
      if |workers| == 0 {
        return false;
      }
      ok := true;
      var tasks := PlanTasks(workers, numTasks, stages);
      n, userStages := numTasks, stages;
      routing := BuildRouting(tasks);
      stageTaskCount := InitialCounts(numTasks, stages);
      added := stageTaskCount;
      ghost var before := allTasks;
      allTasks := Track(tasks, allTasks);
      JobTables(workers, numTasks, stages, tasks, before);
    }

    method InitialCounts(numTasks: nat, stages: nat) returns (counts: map<nat, nat>)
      ensures forall s :: s in counts <==> 1 <= s <= stages
      ensures forall s :: s in counts ==> counts[s] == numTasks
    {
      counts := map[];
      var stageIdx := 0;
      while stageIdx < stages
        invariant 0 <= stageIdx <= stages
        invariant forall s :: s in counts <==> 1 <= s <= stageIdx
        invariant forall s :: s in counts ==> counts[s] == numTasks
      {
        var actualStageID := stageIdx + 1;
        counts := counts[actualStageID := numTasks];
        stageIdx := stageIdx + 1;
      }
    }

    /** Appends every task's address to its stage's entries. */
    method BuildRouting(tasks: seq<Task>) returns (table: map<nat, seq<Address>>)
      ensures table == RoutingOf(tasks)
    {
      table := map[];
      var k := 0;
      while k < |tasks|
        invariant 0 <= k <= |tasks| && table == RoutingOf(tasks[..k])
      {
        assert tasks[..k + 1][..k] == tasks[..k];
        var s := tasks[k].id.stage;
        table := table[s := (if s in table then table[s] else []) + [tasks[k].address]];
        k := k + 1;
      }
      assert tasks[..k] == tasks;
    }

    /** Every task that is sent to its worker is tracked. */
    method Track(tasks: seq<Task>, before: Tasks) returns (after: Tasks)
      ensures after == TasksOf(tasks, before)
    {
      after := before;
      var k := 0;
      while k < |tasks|
        invariant 0 <= k <= |tasks| && after == TasksOf(tasks[..k], before)
      {
        assert tasks[..k + 1][..k] == tasks[..k];
        after := after[tasks[k].id := tasks[k].address];
        k := k + 1;
      }
      assert tasks[..k] == tasks;
    }

    /** Adds a task to a user stage, or takes its last one away. With nobody to run a new task only the
        count goes up: that, and only that, leaves the stage wrongly routed. */
    method ScaleStage(s: nat, up: bool, workers: seq<string>)
      requires Valid() && 1 <= s <= userStages
      modifies this
      ensures n == old(n) && userStages == old(userStages)
      ensures forall o: nat :: 1 <= o <= userStages && o != s ==>
        StageOk(o) && EntriesOf(routing, o) == EntriesOf(old(routing), o) && CountOf(stageTaskCount, o) == CountOf(old(stageTaskCount), o)
      ensures Valid() <==> !up || workers != []
      ensures CountOf(stageTaskCount, s) == ScaledCount(CountOf(old(stageTaskCount), s), up)
      ensures EntriesOf(routing, s)
        == ScaledEntries(EntriesOf(old(routing), s), n, userStages, s, CountOf(old(stageTaskCount), s), up, workers)
      ensures var before, after := EntriesOf(old(routing), s), EntriesOf(routing, s);
        && (up && workers != [] ==> |after| == |before| + 1 && before <= after && after[|before|].worker in workers)
        && (!up && |before| > 1 ==> after == before[..|before| - 1])
        && ((up && workers == []) || (!up && |before| == 1) ==> after == before)
      ensures CountOf(stageTaskCount, s) == |EntriesOf(routing, s)| + if up && workers == [] then 1 else 0
    {
      assert StageOk(s);
      var currentCount := stageTaskCount[s];
      if !up && currentCount - 1 < 1 {
        return;
      }
      if up {
        stageTaskCount := stageTaskCount[s := currentCount + 1];
        if workers != [] {
          AddTaskToStage(s, currentCount, workers);
          assert StageOk(s);
        } else {
          assert !StageOk(s);
        }
      } else {
        stageTaskCount := stageTaskCount[s := currentCount - 1];
        RemoveTaskFromStage(s, currentCount - 1);
        assert StageOk(s);
      }
      forall o: nat | 1 <= o <= userStages && o != s ensures StageOk(o) {
        assert old(StageOk(o));
      }
    }

    method AddTaskToStage(s: nat, taskIndex: nat, workers: seq<string>)
      requires 1 <= s <= userStages && workers != [] && s in routing && s in added
      requires Routed(routing[s], taskIndex, allTasks, s) && Ported(routing[s], n, userStages, s, added[s])
      modifies this`routing, this`allTasks, this`added
      ensures s in routing && s in added && routing == old(routing)[s := routing[s]] && added == old(added)[s := added[s]]
      ensures routing[s] == old(routing)[s] + [Address(workers[taskIndex % |workers|], AddedPort(n, userStages, s, taskIndex))]
      ensures Routed(routing[s], taskIndex + 1, allTasks, s) && Ported(routing[s], n, userStages, s, added[s])
      ensures OthersKept(old(allTasks), allTasks, s)
    {
      var worker := workers[taskIndex % |workers|];
      var address := Address(worker, BASE_PORT + n * (userStages + 1) + (s - 1) * 100 + taskIndex + 1000);
      allTasks := allTasks[TaskId(s, taskIndex) := address];
      if added[s] > taskIndex {
        added := added[s := taskIndex];
      }
      routing := routing[s := routing[s] + [address]];
    }

    /** Takes the task's address out of the routing table. */
    method RemoveTaskFromStage(s: nat, taskIndex: nat)
      requires 1 <= s <= userStages && s in routing && s in added
      requires Routed(routing[s], taskIndex + 1, allTasks, s) && Ported(routing[s], n, userStages, s, added[s])
      modifies this`routing
      ensures routing == old(routing)[s := old(routing)[s][..taskIndex]]
    {
      var entries := routing[s];
      assert entries[taskIndex] == allTasks[TaskId(s, taskIndex)];
      var target := allTasks[TaskId(s, taskIndex)];
      PortedDiffer(entries, n, userStages, s, added[s]);
      LastRemoved(entries);
      var kept := Filter(entries, target);
      routing := routing[s := kept];
    }

    /** A task that failed is restarted on the first worker under its old port; the first routing entry
        with the reported address is replaced. The table stays right exactly if `ReportOk`. */
    method HandleTaskFailure(id: TaskId, vm: string, jobEnded: bool, workers: seq<string>) returns (restarted: bool)
      requires Valid()
      modifies this`routing, this`allTasks
      ensures restarted <==> !jobEnded && id in old(allTasks) && workers != []
      ensures !restarted ==> routing == old(routing) && allTasks == old(allTasks)
      ensures restarted ==>
        var port := old(allTasks)[id].port;
        && allTasks == old(allTasks)[id := Address(workers[0], port)]
        && (forall s: nat :: EntriesOf(routing, s) ==
              if s == id.stage then Replaced(EntriesOf(old(routing), s), Address(vm, port), Address(workers[0], port))
              else EntriesOf(old(routing), s))
      ensures Valid() <==> !restarted || old(ReportOk(id, vm, workers[0]))
    {
      if jobEnded || id !in allTasks || |workers| == 0 {
        return false;
      }
      restarted := true;
      var port := allTasks[id].port;
      var s: nat := id.stage;
      ghost var before, entries := allTasks, EntriesOf(routing, s);
      allTasks := allTasks[id := Address(workers[0], port)];
      if s in routing {
        var now := ReplaceFirst(routing[s], Address(vm, port), Address(workers[0], port));
        routing := routing[s := now];
      }
      forall o: nat | 1 <= o <= userStages && o != s ensures StageOk(o) {
        assert old(StageOk(o));
        OtherStage(routing[o], stageTaskCount[o], before, n, userStages, o, added[o], id, Address(workers[0], port));
      }
      if 1 <= s <= userStages {
        assert old(StageOk(s));
        RestartStage(entries, stageTaskCount[s], before, n, userStages, added[s], id, vm, workers[0]);
        assert StageOk(s) <==> RestartOk(entries, stageTaskCount[s], before, id, vm, workers[0]);
      }
    }

    /** What a task that lost its connection is told: for a user stage, the addresses of exactly the
        current tasks, by index, all different. */
    method GetTaskLocation(s: nat) returns (addresses: seq<Address>)
      requires Valid()
      ensures addresses == EntriesOf(routing, s)
      ensures 1 <= s <= userStages ==> |addresses| == CountOf(stageTaskCount, s) >= 1 && AllDifferent(addresses)
      ensures 1 <= s <= userStages ==>
        forall i :: 0 <= i < |addresses| ==> TaskId(s, i) in allTasks && addresses[i] == allTasks[TaskId(s, i)]
    {
      addresses := if s in routing then routing[s] else [];
      if 1 <= s <= userStages {
        assert StageOk(s);
        PortedDiffer(routing[s], n, userStages, s, added[s]);
      }
    }

    /** A report about a current task names its worker, or the task stays where it is; a report about
        another task does not hit anybody's address. */
    ghost predicate ReportOk(id: TaskId, vm: string, newWorker: string)
      requires id in allTasks
      reads this
    {
      1 <= id.stage <= userStages ==>
        RestartOk(EntriesOf(routing, id.stage), CountOf(stageTaskCount, id.stage), allTasks, id, vm, newWorker)
    }

    method ReplaceFirst(entries: seq<Address>, was: Address, now: Address) returns (r: seq<Address>)
      ensures r == Replaced(entries, was, now)
    {
      var i := 0;
      while i < |entries| && entries[i] != was
        invariant 0 <= i <= |entries| && forall j :: 0 <= j < i ==> entries[j] != was
      {
        i := i + 1;
      }
      if i < |entries| {
        r := entries[i := now];
        ReplacedAt(entries, i, now);
      } else {
        r := entries;
        ReplacedNot(entries, was, now);
      }
    }

    method Filter(entries: seq<Address>, target: Address) returns (kept: seq<Address>)
      ensures kept == Remaining(entries, target)
    {
      kept := [];
      var k := 0;
      while k < |entries|
        invariant 0 <= k <= |entries| && kept == Remaining(entries[..k], target)
      {
        assert entries[..k + 1][..k] == entries[..k];
        if entries[k] != target {
          kept := kept + [entries[k]];
        }
        k := k + 1;
      }
      assert entries[..k] == entries;
    }
  }

  ghost predicate OthersKept(before: Tasks, after: Tasks, s: nat) {
    forall id: TaskId :: id.stage != s ==> (id in after <==> id in before) && (id in before ==> after[id] == before[id])
  }

  // ---------- the tables of a new job ----------

  function RoutingOf(tasks: seq<Task>): map<nat, seq<Address>> {
    if tasks == [] then map[]
    else
      var before := RoutingOf(tasks[..|tasks| - 1]);
      var t := tasks[|tasks| - 1];
      before[t.id.stage := EntriesOf(before, t.id.stage) + [t.address]]
  }

  function TasksOf(tasks: seq<Task>, before: Tasks): Tasks {
    if tasks == [] then before
    else
      var t := tasks[|tasks| - 1];
      TasksOf(tasks[..|tasks| - 1], before)[t.id := t.address]
  }

  function PlannedAddress(workers: seq<string>, n: nat, s: nat, i: nat): Address
    requires workers != []
  {
    Address(workers[(s * n + i) % |workers|], InitialPort(n, s, i))
  }

  ghost predicate PlannedStage(workers: seq<string>, n: nat, s: nat, entries: seq<Address>)
    requires workers != []
  {
    |entries| == n && forall i :: 0 <= i < n ==> entries[i] == PlannedAddress(workers, n, s, i)
  }

  /** How many of the first `k` tasks belong to stage `s`. */
  function Filled(n: nat, k: nat, s: nat): (r: nat) {
    if k <= s * n then 0 else if k >= s * n + n then n else k - s * n
  }

  lemma FilledStep(n: nat, k: nat, s: nat)
    requires n > 0
    ensures k == k / n * n + k % n
    ensures s == k / n ==> Filled(n, k, s) == k % n && Filled(n, k + 1, s) == k % n + 1
    ensures s != k / n ==> Filled(n, k + 1, s) == Filled(n, k, s)
  {
    var d := k / n - s;
    assert k == n * (k / n) + k % n;
    assert k - s * n == n * d + k % n;
    Multiple(n, d);
  }

  ghost predicate RoutedSoFar(table: map<nat, seq<Address>>, workers: seq<string>, n: nat, k: nat, s: nat)
    requires workers != []
  {
    var e := EntriesOf(table, s);
    && |e| == Filled(n, k, s)
    && (forall i :: 0 <= i < |e| ==> e[i] == PlannedAddress(workers, n, s, i))
    && (|e| > 0 ==> s in table)
  }

  lemma RouteOne(table: map<nat, seq<Address>>, workers: seq<string>, n: nat, k: nat, s: nat)
    requires workers != [] && n > 0 && RoutedSoFar(table, workers, n, k, s)
    ensures var o := k / n;
      RoutedSoFar(table[o := EntriesOf(table, o) + [Planned(workers, n, k).address]], workers, n, k + 1, s)
  {
    FilledStep(n, k, s);
    if s == k / n {
      assert Planned(workers, n, k).address == PlannedAddress(workers, n, s, k % n);
    }
  }

  lemma {:induction false} PlanIsRouted(workers: seq<string>, n: nat, tasks: seq<Task>, s: nat)
    requires workers != [] && n > 0 && IsPlan(workers, n, tasks)
    ensures RoutedSoFar(RoutingOf(tasks), workers, n, |tasks|, s)
  {
    if tasks == [] {
      assert s * n >= 0;
    } else {
      var k := |tasks| - 1;
      PlanIsRouted(workers, n, tasks[..k], s);
      RouteOne(RoutingOf(tasks[..k]), workers, n, k, s);
      assert tasks[k] == Planned(workers, n, k);
    }
  }

  lemma PlannedIsPorted(workers: seq<string>, n: nat, userStages: nat, s: nat, entries: seq<Address>)
    requires workers != [] && s >= 1 && PlannedStage(workers, n, s, entries)
    ensures Ported(entries, n, userStages, s, n)
  {}

  lemma StageOfPlan(workers: seq<string>, n: nat, userStages: nat, tasks: seq<Task>, s: nat)
    requires workers != [] && n > 0 && IsPlan(workers, n, tasks) && |tasks| == n * (userStages + 1) && s <= userStages
    ensures s in RoutingOf(tasks) && PlannedStage(workers, n, s, RoutingOf(tasks)[s])
  {
    PlanIsRouted(workers, n, tasks, s);
    StageFits(n, userStages, s);
  }

  lemma StageFits(n: nat, userStages: nat, s: nat)
    requires s <= userStages
    ensures s * n + n <= n * (userStages + 1)
  {
    assert n * (userStages + 1) == s * n + (userStages - s) * n + n;
    assert (userStages - s) * n >= 0;
  }

  lemma PlannedIdsDiffer(workers: seq<string>, n: nat, t: nat, u: nat)
    requires workers != [] && n > 0 && t < u
    ensures Planned(workers, n, t).id != Planned(workers, n, u).id
  {
    assert t == n * (t / n) + t % n && u == n * (u / n) + u % n;
  }

  lemma {:induction false} PlanIsTracked(workers: seq<string>, n: nat, tasks: seq<Task>, before: Tasks, t: nat)
    requires workers != [] && n > 0 && IsPlan(workers, n, tasks) && t < |tasks|
    ensures tasks[t].id in TasksOf(tasks, before) && TasksOf(tasks, before)[tasks[t].id] == tasks[t].address
  {
    var k := |tasks| - 1;
    if t == k {
    } else {
      PlanIsTracked(workers, n, tasks[..k], before, t);
      PlannedIdsDiffer(workers, n, t, k);
      assert tasks[t] == Planned(workers, n, t) && tasks[k] == Planned(workers, n, k);
    }
  }

  lemma TrackedPlan(workers: seq<string>, n: nat, userStages: nat, tasks: seq<Task>, before: Tasks, s: nat)
    requires workers != [] && n > 0 && IsPlan(workers, n, tasks) && |tasks| == n * (userStages + 1) && s <= userStages
    requires s in RoutingOf(tasks) && PlannedStage(workers, n, s, RoutingOf(tasks)[s])
    ensures Routed(RoutingOf(tasks)[s], n, TasksOf(tasks, before), s)
  {
    StageFits(n, userStages, s);
    forall i | 0 <= i < n
      ensures TaskId(s, i) in TasksOf(tasks, before) && RoutingOf(tasks)[s][i] == TasksOf(tasks, before)[TaskId(s, i)]
    {
      PlannedTaskTracked(workers, n, tasks, before, s, i);
    }
  }

  lemma PlannedTaskTracked(workers: seq<string>, n: nat, tasks: seq<Task>, before: Tasks, s: nat, i: nat)
    requires workers != [] && n > 0 && IsPlan(workers, n, tasks) && i < n && s * n + i < |tasks|
    ensures TaskId(s, i) in TasksOf(tasks, before)
    ensures TasksOf(tasks, before)[TaskId(s, i)] == PlannedAddress(workers, n, s, i)
  {
    DivMod(n, s, i);
    PlanIsTracked(workers, n, tasks, before, s * n + i);
    assert tasks[s * n + i] == Planned(workers, n, s * n + i);
  }

  lemma JobTables(workers: seq<string>, n: nat, userStages: nat, tasks: seq<Task>, before: Tasks)
    requires workers != [] && n > 0 && IsPlan(workers, n, tasks) && |tasks| == n * (userStages + 1)
    ensures forall s: nat :: s <= userStages ==>
      s in RoutingOf(tasks) && PlannedStage(workers, n, s, RoutingOf(tasks)[s]) && Routed(RoutingOf(tasks)[s], n, TasksOf(tasks, before), s)
    ensures forall s: nat :: 1 <= s <= userStages ==> s in RoutingOf(tasks) && Ported(RoutingOf(tasks)[s], n, userStages, s, n)
  {
    forall s: nat | s <= userStages ensures
      s in RoutingOf(tasks) && PlannedStage(workers, n, s, RoutingOf(tasks)[s]) && Routed(RoutingOf(tasks)[s], n, TasksOf(tasks, before), s)
    {
      StageOfPlan(workers, n, userStages, tasks, s);
      TrackedPlan(workers, n, userStages, tasks, before, s);
    }
    forall s: nat | 1 <= s <= userStages ensures Ported(RoutingOf(tasks)[s], n, userStages, s, n) {
      PlannedIsPorted(workers, n, userStages, s, RoutingOf(tasks)[s]);
    }
  }
}
