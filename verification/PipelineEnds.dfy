/** What the end-of-stream markers mean: when a counting task flushes, every tuple has been counted. */
module PipelineEnds {
  import opened Pipeline
  import opened PipelineSafety

  predicate AllEnded(sources: seq<Source>) {
    forall i :: 0 <= i < |sources| ==> sources[i].Ended?
  }

  /** The markers to a task from all tasks of stage `s`. */
  function FromTasks(s: nat, task: nat, n: nat): set<Marker> {
    set u: nat | u < n :: Marker(s, u, task)
  }

  lemma {:induction false} FromTasksSize(s: nat, task: nat, n: nat)
    ensures |FromTasks(s, task, n)| == n
  {
    if n > 0 {
      FromTasksSize(s, task, n - 1);
      assert FromTasks(s, task, n) == FromTasks(s, task, n - 1) + {Marker(s, n - 1, task)};
    } else {
      assert FromTasks(s, task, n) == {};
    }
  }

  /** The task has handled the markers of all its upstream tasks. */
  predicate UpstreamSpent(n: nat, spent: set<Marker>, stage: nat, task: nat) {
    stage >= 1 && FromTasks(stage - 1, task, n) <= spent
  }

  predicate MarkerOk(job: Job, sources: seq<Source>, spent: set<Marker>, m: Marker) {
    && m.stage < Depth(job) && m.from < job.n
    && (m.stage == 0 ==> m.from < |sources| && sources[m.from].Ended?)
    && (m.stage >= 1 ==> AllEnded(sources) && UpstreamSpent(job.n, spent, m.stage, m.from))
  }

  ghost predicate MarkersOk(job: Job, sources: seq<Source>, markers: set<Marker>, spent: set<Marker>) {
    && markers !! spent
    && forall m :: m in markers || m in spent ==> MarkerOk(job, sources, spent, m)
  }

  function SeenAt(seen: set<Marker>, at: Location): set<Marker> {
    set m | m in seen && m.stage + 1 == at.stage && m.to == at.task
  }

  /** The counter of a task is the number of distinct markers it handled since it started. */
  ghost predicate CountersOk(seen: set<Marker>, spent: set<Marker>, eofCount: map<Location, nat>) {
    && seen <= spent
    && forall at :: CountOf(eofCount, at) == |SeenAt(seen, at)|
  }

  ghost predicate EndsOk(job: Job, sources: seq<Source>, e: Ends) {
    MarkersOk(job, sources, e.markers, e.spent) && CountersOk(e.seen, e.spent, e.eofCount)
  }

  // ---------- sources ----------

  lemma SourceMoves(job: Job, sources: seq<Source>, e: Ends, i: nat, src: Source)
    requires EndsOk(job, sources, e) && i < |sources| && !sources[i].Ended?
    ensures EndsOk(job, sources[i := src], e)
  {
    forall m | m in e.markers || m in e.spent ensures MarkerOk(job, sources[i := src], e.spent, m) {
      assert MarkerOk(job, sources, e.spent, m);
    }
  }

  lemma SourceEnds(job: Job, sources: seq<Source>, e: Ends, i: nat)
    requires EndsOk(job, sources, e) && |sources| == job.n && i < job.n && sources[i].Reading?
    ensures EndsOk(job, sources[i := Ended], e.(markers := e.markers + MarkersFrom(job, Location(0, i))))
  {
    SourceMoves(job, sources, e, i, Ended);
    var added := MarkersFrom(job, Location(0, i));
    forall m | m in added ensures m !in e.spent && MarkerOk(job, sources[i := Ended], e.spent, m) {
      assert m in e.spent ==> MarkerOk(job, sources, e.spent, m);
    }
  }

  // ---------- handling a marker ----------

  lemma MarkerMoves(job: Job, sources: seq<Source>, markers: set<Marker>, spent: set<Marker>, m: Marker)
    requires MarkersOk(job, sources, markers, spent) && m in markers
    ensures MarkersOk(job, sources, markers - {m}, spent + {m})
  {
    forall o | o in markers || o in spent ensures MarkerOk(job, sources, spent + {m}, o) {
      assert MarkerOk(job, sources, spent, o);
    }
  }

  lemma SeenGrows(seen: set<Marker>, m: Marker, at: Location)
    requires m !in seen
    ensures |SeenAt(seen + {m}, at)| ==
      |SeenAt(seen, at)| + if at == Location(m.stage + 1, m.to) then 1 else 0
  {
    if at == Location(m.stage + 1, m.to) {
      assert SeenAt(seen + {m}, at) == SeenAt(seen, at) + {m};
    } else {
      assert SeenAt(seen + {m}, at) == SeenAt(seen, at);
    }
  }

  lemma CounterGrows(seen: set<Marker>, spent: set<Marker>, eofCount: map<Location, nat>, m: Marker)
    requires CountersOk(seen, spent, eofCount) && m !in seen
    ensures var here := Location(m.stage + 1, m.to);
      CountersOk(seen + {m}, spent + {m}, eofCount[here := CountOf(eofCount, here) + 1])
  {
    forall at: Location ensures |SeenAt(seen + {m}, at)| ==
      |SeenAt(seen, at)| + if at == Location(m.stage + 1, m.to) then 1 else 0
    {
      SeenGrows(seen, m, at);
    }
  }

  lemma FullSubset<T>(a: set<T>, b: set<T>)
    requires a <= b && |a| >= |b|
    ensures a == b
  {
    assert b == a + (b - a);
    assert |b| == |a| + |b - a|;
  }

  /** With `n` distinct markers handled, none of the upstream tasks is missing. */
  lemma AllSeen(job: Job, sources: seq<Source>, e: Ends, at: Location)
    requires MarkersOk(job, sources, e.markers, e.spent) && CountersOk(e.seen, e.spent, e.eofCount)
    requires at.stage >= 1 && CountOf(e.eofCount, at) >= job.n
    ensures UpstreamSpent(job.n, e.spent, at.stage, at.task)
  {
    var all := FromTasks(at.stage - 1, at.task, job.n);
    var here := SeenAt(e.seen, at);
    forall m | m in here ensures m in all {
      assert MarkerOk(job, sources, e.spent, m);
    }
    FromTasksSize(at.stage - 1, at.task, job.n);
    FullSubset(here, all);
  }

  lemma SpentMeansEnded(job: Job, sources: seq<Source>, markers: set<Marker>, spent: set<Marker>, stage: nat, task: nat)
    requires MarkersOk(job, sources, markers, spent) && job.n > 0 && |sources| == job.n
    requires UpstreamSpent(job.n, spent, stage, task)
    ensures AllEnded(sources)
  {
    forall i | 0 <= i < |sources| ensures sources[i].Ended? {
      var m := Marker(stage - 1, i, task);
      assert m in FromTasks(stage - 1, task, job.n);
      assert MarkerOk(job, sources, spent, m);
    }
  }

  lemma Broadcasts(job: Job, sources: seq<Source>, e: Ends, m: Marker, at: Location)
    requires ValidJob(job) && |sources| == job.n
    requires EndsOk(job, sources, e) && m in e.spent && m.stage + 1 == at.stage && m.to == at.task
    requires at.stage < Depth(job) && at.task < job.n && CountOf(e.eofCount, at) >= job.n
    requires forall o :: o in e.spent && o.stage == at.stage ==> o.from != at.task
    ensures EndsOk(job, sources, Broadcast(job, e, at))
  {
    AllSeen(job, sources, e, at);
    SpentMeansEnded(job, sources, e.markers, e.spent, at.stage, at.task);
    forall o | o in MarkersFrom(job, at) ensures MarkerOk(job, sources, e.spent, o) && o !in e.spent {
      assert o.stage == at.stage && o.from == at.task;
    }
  }

  /** A task that still has a marker to handle has not broadcast before. */
  lemma NotYetBroadcast(job: Job, sources: seq<Source>, markers: set<Marker>, spent: set<Marker>, m: Marker, o: Marker)
    requires MarkersOk(job, sources, markers, spent) && m in markers
    requires o in spent + {m} && o.stage == m.stage + 1
    ensures o.from != m.to
  {
    assert MarkerOk(job, sources, spent, o) && MarkerOk(job, sources, spent, m);
    assert m in FromTasks(m.stage, m.to, job.n);
  }

  lemma MarkerCountedKeeps(job: Job, sources: seq<Source>, e: Ends, m: Marker)
    requires EndsOk(job, sources, e) && m in e.markers
    ensures EndsOk(job, sources, MarkerCounted(e, m))
  {
    MarkerMoves(job, sources, e.markers, e.spent, m);
    CounterGrows(e.seen, e.spent, e.eofCount, m);
  }

  lemma BroadcastKeeps(job: Job, sources: seq<Source>, e: Ends, m: Marker)
    requires ValidJob(job) && |sources| == job.n
    requires EndsOk(job, sources, e) && m in e.markers && m.to < job.n
    requires m.stage + 1 < Depth(job) && CountOf(MarkerCounted(e, m).eofCount, Location(m.stage + 1, m.to)) >= job.n
    ensures EndsOk(job, sources, Broadcast(job, MarkerCounted(e, m), Location(m.stage + 1, m.to)))
  {
    MarkerCountedKeeps(job, sources, e, m);
    forall o | o in e.spent + {m} && o.stage == m.stage + 1 ensures o.from != m.to {
      NotYetBroadcast(job, sources, e.markers, e.spent, m, o);
    }
    Broadcasts(job, sources, MarkerCounted(e, m), m, Location(m.stage + 1, m.to));
  }

  lemma FlushedIrrelevant(job: Job, sources: seq<Source>, e: Ends, flushed: map<nat, Counts>)
    requires EndsOk(job, sources, e)
    ensures EndsOk(job, sources, e.(flushed := flushed))
  {}

  lemma TakeMarkerKeeps(job: Job, sources: seq<Source>, e: Ends, counts: seq<Counts>, m: Marker)
    requires ValidJob(job) && |sources| == job.n && |counts| == job.n
    requires EndsOk(job, sources, e) && m in e.markers && m.to < job.n && m.stage < Depth(job)
    ensures EndsOk(job, sources, TakeMarker(job, e, counts, m))
  {
    var at := Location(m.stage + 1, m.to);
    var e1 := MarkerCounted(e, m);
    var r := TakeMarker(job, e, counts, m);
    if r == e1 {
      MarkerCountedKeeps(job, sources, e, m);
    } else if at.stage == Depth(job) {
      assert r == e1.(flushed := e.flushed[m.to := counts[m.to]]);
      MarkerCountedKeeps(job, sources, e, m);
      FlushedIrrelevant(job, sources, e1, e.flushed[m.to := counts[m.to]]);
    } else {
      assert r == Broadcast(job, e1, at);
      BroadcastKeeps(job, sources, e, m);
    }
  }

  lemma CrashKeepsEnds(job: Job, sources: seq<Source>, e: Ends, at: Location)
    requires EndsOk(job, sources, e)
    ensures EndsOk(job, sources, CrashEnds(e, at))
  {
    var e' := CrashEnds(e, at);
    forall o: Location ensures CountOf(e'.eofCount, o) == |SeenAt(e'.seen, o)| {
      if o == at {
        assert SeenAt(e'.seen, o) == {};
      } else {
        assert SeenAt(e'.seen, o) == SeenAt(e.seen, o);
      }
    }
  }

  // ---------- flushing ----------

  lemma EndedMeansSettled(job: Job, s: Data, x: nat)
    requires ValidJob(job) && SourcesOk(job, s.sources, s.history) && AllEnded(s.sources)
    ensures Settled(job, s.history, x)
  {
    if x < |job.lines| {
      assert SourceOk(job, x % job.n, s.sources[x % job.n], s.history);
    } else {
      FilteredStaysFiltered(job, 1, Depth(job), x);
    }
  }

  /** Once all sources have ended, no counting task executes again. */
  lemma NoMoreCounting(job: Job, s: Data, step: Step)
    requires ValidJob(job) && Safe(job, s) && EnabledData(job, s, step) && AllEnded(s.sources)
    ensures ApplyData(job, s, step).history == s.history
  {
    if step.Process? && step.slot.stage == Depth(job) {
      NotYetCounted(job, s, step.slot);
      EndedMeansSettled(job, s, step.slot.id);
    }
  }

  /** With a stateless stage in between, or a single task per stage, a marker reaches the counting
      stage only after every source has ended. */
  predicate MarkersWait(job: Job) {
    Depth(job) >= 2 || job.n == 1
  }

  ghost predicate FlushOk(job: Job, s: State) {
    forall d :: d in s.ends.flushed ==>
      AllEnded(s.data.sources) && s.ends.flushed[d] == TallyOf(s.data.history, d)
  }

  lemma LastMarkerMeansEnded(job: Job, sources: seq<Source>, e: Ends, m: Marker)
    requires ValidJob(job) && MarkersWait(job) && |sources| == job.n
    requires EndsOk(job, sources, e) && m in e.markers && m.stage + 1 == Depth(job)
    ensures AllEnded(sources)
  {
    assert MarkerOk(job, sources, e.spent, m);
  }

  // ---------- every run ----------

  lemma SourcesOnlyBySources(job: Job, s: Data, step: Step)
    requires ValidJob(job) && EnabledData(job, s, step)
    requires !step.SourceNext? && !step.SourceAck?
    ensures ApplyData(job, s, step).sources == s.sources
  {}

  lemma SourceStepKeepsEnds(job: Job, s: State, step: Step)
    requires ValidJob(job) && Enabled(job, s, step) && |s.data.sources| == job.n
    requires EndsOk(job, s.data.sources, s.ends) && (step.SourceNext? || step.SourceAck?)
    ensures EndsOk(job, ApplyData(job, s.data, step).sources, ApplyEnds(job, s, step))
  {
    var i := step.i;
    if AtEnd(job, s.data, i) && step.SourceNext? {
      SourceEnds(job, s.data.sources, s.ends, i);
    } else {
      SourceMoves(job, s.data.sources, s.ends, i, ApplyData(job, s.data, step).sources[i]);
    }
  }

  lemma StepKeepsEnds(job: Job, s: State, step: Step)
    requires ValidJob(job) && Enabled(job, s, step) && |s.data.sources| == job.n && |s.data.counts| == job.n
    requires EndsOk(job, s.data.sources, s.ends)
    ensures EndsOk(job, Apply(job, s, step).data.sources, Apply(job, s, step).ends)
  {
    if step.SourceNext? || step.SourceAck? {
      SourceStepKeepsEnds(job, s, step);
    } else {
      SourcesOnlyBySources(job, s.data, step);
      if step.ReceiveMarker? {
        TakeMarkerKeeps(job, s.data.sources, s.ends, s.data.counts, step.marker);
      } else if step.Crash? {
        CrashKeepsEnds(job, s.data.sources, s.ends, step.at);
      }
    }
  }

  lemma EndedStays(job: Job, s: Data, step: Step)
    requires ValidJob(job) && EnabledData(job, s, step) && AllEnded(s.sources)
    ensures AllEnded(ApplyData(job, s, step).sources)
  {
    if !step.SourceNext? && !step.SourceAck? {
      SourcesOnlyBySources(job, s, step);
    }
  }

  lemma FlushStep(job: Job, s: State, step: Step, d: nat)
    requires ValidJob(job) && Enabled(job, s, step)
    requires d in ApplyEnds(job, s, step).flushed
    ensures (d in s.ends.flushed && ApplyEnds(job, s, step).flushed[d] == s.ends.flushed[d])
      || (step.ReceiveMarker? && step.marker.stage + 1 == Depth(job) && step.marker.to == d
          && ApplyEnds(job, s, step).flushed[d] == s.data.counts[d])
  {}

  lemma StepKeepsFlush(job: Job, s: State, step: Step)
    requires ValidJob(job) && MarkersWait(job) && Enabled(job, s, step)
    requires Safe(job, s.data) && EndsOk(job, s.data.sources, s.ends) && FlushOk(job, s)
    ensures FlushOk(job, Apply(job, s, step))
  {
    var s' := Apply(job, s, step);
    forall d | d in s'.ends.flushed
      ensures AllEnded(s'.data.sources) && s'.ends.flushed[d] == TallyOf(s'.data.history, d)
    {
      FlushStep(job, s, step, d);
      if d !in s.ends.flushed {
        LastMarkerMeansEnded(job, s.data.sources, s.ends, step.marker);
      }
      EndedStays(job, s.data, step);
      NoMoreCounting(job, s.data, step);
    }
  }

  lemma {:induction false} RunsKeepEnds(job: Job, steps: seq<Step>, states: seq<State>, k: nat)
    requires ValidJob(job) && Run(job, steps, states) && k < |states|
    ensures EndsOk(job, states[k].data.sources, states[k].ends)
    ensures MarkersWait(job) ==> FlushOk(job, states[k])
  {
    if k == 0 {
      assert forall at :: SeenAt({}, at) == {};
    } else {
      RunsKeepEnds(job, steps, states, k - 1);
      RunsAreSafe(job, steps, states, k - 1);
      assert Leads(job, steps, states, k - 1);
      StepKeepsEnds(job, states[k - 1], steps[k - 1]);
      if MarkersWait(job) {
        StepKeepsFlush(job, states[k - 1], steps[k - 1]);
      }
    }
  }
}
