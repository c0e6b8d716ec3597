/** How the leader lays out a job: worker, port and routing entry of every task. */
module Schedule {
  import opened Arithmetic

  datatype TaskId = TaskId(stage: nat, index: nat)

  datatype Address = Address(worker: string, port: nat)

  datatype Task = Task(id: TaskId, address: Address)

  const BASE_PORT := 10000

  /** The tasks are numbered through all stages; the `t`-th gets the `t`-th worker in turn, and the
      port counter has moved on by one for each task before it. */
  function Planned(workers: seq<string>, n: nat, t: nat): Task
    requires workers != [] && n > 0
  {
    Task(TaskId(t / n, t % n), Address(workers[t % |workers|], BASE_PORT + t + t % n))
  }

  ghost predicate IsPlan(workers: seq<string>, n: nat, tasks: seq<Task>)
    requires workers != [] && n > 0
  {
    forall t {:trigger Planned(workers, n, t)} :: 0 <= t < |tasks| ==> tasks[t] == Planned(workers, n, t)
  }

  /** The source stage and then the user stages, `n` tasks each. */
  method PlanTasks(workers: seq<string>, n: nat, userStages: nat) returns (tasks: seq<Task>)
    requires workers != []
    ensures |tasks| == n * (userStages + 1)
    ensures n > 0 ==> IsPlan(workers, n, tasks)
  {
    tasks := [];
    var basePort, workerIndex := BASE_PORT, 0;
    var stage := 0;
    while stage <= userStages
      invariant 0 <= stage <= userStages + 1
      invariant |tasks| == workerIndex == stage * n && basePort == BASE_PORT + stage * n
      invariant n > 0 ==> IsPlan(workers, n, tasks)
    {
      var i := 0;
      while i < n
        invariant 0 <= i <= n
        invariant |tasks| == workerIndex == stage * n + i && basePort == BASE_PORT + stage * n + i
        invariant n > 0 ==> IsPlan(workers, n, tasks)
      {
        var worker := workers[workerIndex % |workers|];
        DivMod(n, stage, i);
        tasks := tasks + [Task(TaskId(stage, i), Address(worker, basePort + i))];
        workerIndex := workerIndex + 1;
        basePort := basePort + 1;
        i := i + 1;
      }
      assert (stage + 1) * n == stage * n + n;
      stage := stage + 1;
    }
    assert n * (userStages + 1) == (userStages + 1) * n;
  }

  /** The plan has every task of every stage at its place: the workers take turns through all stages, and
      the ports of a stage follow those of the stage before in steps of two. */
  lemma TaskAt(workers: seq<string>, n: nat, userStages: nat, tasks: seq<Task>, stage: nat, i: nat)
    requires workers != [] && n > 0 && IsPlan(workers, n, tasks) && |tasks| == n * (userStages + 1)
    requires stage <= userStages && i < n
    ensures stage * n + i < |tasks|
    ensures tasks[stage * n + i] == Task(TaskId(stage, i), Address(workers[(stage * n + i) % |workers|], 10000 + stage * n + 2 * i))
  {
    DivMod(n, stage, i);
    assert n * (userStages + 1) == stage * n + (userStages - stage) * n + n;
    assert (userStages - stage) * n >= 0;
    assert tasks[stage * n + i] == Planned(workers, n, stage * n + i);
  }

  // ---------- addresses ----------

  predicate AllDistinct(workers: seq<string>) {
    forall i, j :: 0 <= i < j < |workers| ==> workers[i] != workers[j]
  }

  ghost predicate NoCollision(workers: seq<string>, n: nat, userStages: nat)
    requires workers != [] && n > 0
  {
    forall t, u :: 0 <= t < u < n * (userStages + 1) ==>
      Planned(workers, n, t).address != Planned(workers, n, u).address
  }

  /** Ports meet only between neighbouring stages, half a stage apart. */
  lemma PortsMeet(n: nat, t: nat, u: nat)
    requires n > 0 && t < u && t + t % n == u + u % n
    ensures n % 2 == 0 && u == t + n / 2 && t % n >= n / 2
  {
    var d, x := u / n - t / n, t % n - u % n;
    assert t == n * (t / n) + t % n && u == n * (u / n) + u % n;
    assert u - t == n * d - x && n * d == 2 * x;
    OneStageApart(n, d, x);
  }

  lemma OneStageApart(n: nat, d: int, x: int)
    requires n * d == 2 * x && x > 0 && x < n
    ensures d == 1
  {
    Multiple(n, d);
    Multiple(n, d - 2);
    assert n * (d - 2) == n * d - 2 * n;
  }

  lemma SameWorkerIff(workers: seq<string>, t: nat, u: nat)
    requires workers != [] && AllDistinct(workers) && t <= u
    ensures workers[t % |workers|] == workers[u % |workers|] <==> (u - t) % |workers| == 0
  {
    SameResidueIff(|workers|, t, u);
  }

  /** All task addresses of a job are different if and only if there is no user stage, or the number
      of tasks per stage is odd, or the number of workers does not divide half of it. */
  lemma AddressesDistinctIff(workers: seq<string>, n: nat, userStages: nat)
    requires workers != [] && AllDistinct(workers) && n > 0
    ensures NoCollision(workers, n, userStages) <==> userStages == 0 || n % 2 == 1 || (n / 2) % |workers| != 0
  {
    if userStages == 0 || n % 2 == 1 || (n / 2) % |workers| != 0 {
      forall t, u | 0 <= t < u < n * (userStages + 1)
        ensures Planned(workers, n, t).address != Planned(workers, n, u).address
      {
        if t + t % n == u + u % n {
          PortsMeet(n, t, u);
          SameWorkerIff(workers, t, u);
          if userStages == 0 {
            SmallResidue(n, t);
          }
        }
      }
    } else {
      var t, u := n / 2, n;
      assert u < n * (userStages + 1) by { Multiple(n, userStages); assert n * (userStages + 1) == n * userStages + n; }
      DivMod(n, 0, t);
      DivMod(n, 1, 0);
      SameWorkerIff(workers, t, u);
      assert u - t == n / 2;
      assert Planned(workers, n, t).address == Planned(workers, n, u).address;
    }
  }

  // ---------- load ----------

  /** How many of the tasks are on the worker. */
  function Load(tasks: seq<Task>, worker: string): nat {
    if tasks == [] then 0
    else Load(tasks[..|tasks| - 1], worker) + if tasks[|tasks| - 1].address.worker == worker then 1 else 0
  }

  lemma {:induction false} LoadIs(workers: seq<string>, n: nat, tasks: seq<Task>, w: nat)
    requires workers != [] && n > 0 && AllDistinct(workers) && w < |workers| && IsPlan(workers, n, tasks)
    ensures Load(tasks, workers[w]) == |tasks| / |workers| + if w < |tasks| % |workers| then 1 else 0
  {
    if tasks == [] {
      SmallResidue(|workers|, 0);
    } else {
      var t := |tasks| - 1;
      assert forall k :: 0 <= k < t ==> tasks[..t][k] == Planned(workers, n, k);
      LoadIs(workers, n, tasks[..t], w);
      CountUp(t, |workers|);
      assert tasks[t] == Planned(workers, n, t);
      assert workers[t % |workers|] == workers[w] <==> t % |workers| == w;
    }
  }

  /** In a planned job the loads of two workers differ by at most one. */
  lemma LoadsBalanced(workers: seq<string>, n: nat, tasks: seq<Task>, v: nat, w: nat)
    requires workers != [] && n > 0 && AllDistinct(workers) && v < |workers| && w < |workers| && IsPlan(workers, n, tasks)
    ensures -1 <= Load(tasks, workers[v]) - Load(tasks, workers[w]) <= 1
  {
    LoadIs(workers, n, tasks, v);
    LoadIs(workers, n, tasks, w);
  }
}
