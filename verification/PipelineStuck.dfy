/** Runs without failures that can go no further: nothing is lost on the way, so they are finished. */
module PipelineStuck {
  import opened Maybe
  import opened Pipeline
  import opened PipelineSafety
  import opened PipelineEnds
  import opened PipelineDrain
  import opened PipelineClean

  // ---------- no token is lost ----------

  /** The message that carries line `x` to stage `t`. */
  function Letter(job: Job, t: nat, x: nat): Message
    requires ValidJob(job) && Reaches(job, t, x)
  {
    Message(t, Home(job, t, x).task, x, Arriving(job, t, x).value)
  }

  /** Line `x` is on its way to stage `t`, in hand there, or acknowledged from there. */
  predicate HasToken(job: Job, s: Data, t: nat, x: nat)
    requires ValidJob(job)
  {
    Reaches(job, t, x) && (Letter(job, t, x) in s.wire || Home(job, t, x) in s.busy || Ack(t, x) in s.acks)
  }

  /** If somebody waits for the acknowledgment of the line, there is something to wait for. */
  predicate NotLost(job: Job, s: Data, t: nat, x: nat)
    requires ValidJob(job)
  {
    Awaited(job, s.sources, s.busy, t, x) ==> HasToken(job, s, t, x)
  }

  lemma LetterOf(job: Job, wire: multiset<Message>, m: Message)
    requires ValidJob(job) && WireOk(job, wire) && m in wire
    ensures Reaches(job, m.stage, m.id) && m == Letter(job, m.stage, m.id) && SlotOf(m) == Home(job, m.stage, m.id)
  {
    assert Fits(job, SlotOf(m), m.payload);
  }

  lemma NextLosesNothing(job: Job, s: Data, i: nat, t: nat, x: nat)
    requires ValidJob(job) && Safe(job, s) && EnabledData(job, s, SourceNext(i)) && NotLost(job, s, t, x)
    ensures NotLost(job, NextSource(job, s, i), t, x)
  {
    assert SourceOk(job, i, s.sources[i], s.history);
    SourceAwaits(job, s.sources, s.busy, i, NextSource(job, s, i).sources[i], t, x);
  }

  lemma AckSourceLosesNothing(job: Job, s: Data, i: nat, t: nat, x: nat)
    requires ValidJob(job) && Safe(job, s) && EnabledData(job, s, SourceAck(i)) && NotLost(job, s, t, x)
    ensures NotLost(job, AckSource(job, s, i), t, x)
  {
    var y := s.sources[i].at;
    assert SourceOk(job, i, s.sources[i], s.history);
    SourceAwaits(job, s.sources, s.busy, i, Reading(y + job.n), t, x);
  }

  lemma ReceiveLosesNothing(job: Job, s: Data, m: Message, t: nat, x: nat)
    requires ValidJob(job) && WireOk(job, s.wire) && EnabledData(job, s, Receive(m)) && NotLost(job, s, t, x)
    ensures NotLost(job, TakeMessage(s, m), t, x)
  {
    LetterOf(job, s.wire, m);
  }

  /** Changing the phase of work in hand, where that does not begin to wait. */
  lemma PhaseLosesNothing(job: Job, s: Data, slot: Slot, phase: Phase, t: nat, x: nat)
    requires ValidJob(job) && slot in s.busy && !phase.Forwarded? && NotLost(job, s, t, x)
    ensures NotLost(job, SetPhase(s, slot, phase), t, x)
  {}

  lemma ForwardLosesNothing(job: Job, s: Data, slot: Slot, q: Payload, t: nat, x: nat)
    requires ValidJob(job) && slot in s.busy && Fits(job, slot, s.busy[slot].payload) && slot.stage < Depth(job)
    requires job.ops[slot.stage - 1](s.busy[slot].payload) == Some(q) && NotLost(job, s, t, x)
    ensures NotLost(job, ForwardSlot(job, s, slot, q), t, x)
  {
    assert Arriving(job, slot.stage + 1, slot.id) == Some(q);
    assert Letter(job, slot.stage + 1, slot.id) == Message(slot.stage + 1, Route(job, q), slot.id, q);
    FitsIsHome(job, slot, s.busy[slot].payload);
  }

  lemma ProcessLosesNothing(job: Job, s: Data, slot: Slot, t: nat, x: nat)
    requires ValidJob(job) && BusyOk(job, s.busy) && EnabledData(job, s, Process(slot)) && NotLost(job, s, t, x)
    ensures NotLost(job, ProcessSlot(job, s, slot), t, x)
  {
    ProcessCases(job, s, slot);
    assert WorkOk(job, slot, s.busy[slot]);
    PhaseLosesNothing(job, s, slot, Processed, t, x);
    if slot.stage < Depth(job) {
      var r := job.ops[slot.stage - 1](s.busy[slot].payload);
      if r.Some? {
        ForwardLosesNothing(job, s, slot, r.value, t, x);
      }
    }
  }

  lemma AckTaskLosesNothing(job: Job, s: Data, slot: Slot, t: nat, x: nat)
    requires ValidJob(job) && BusyOk(job, s.busy) && EnabledData(job, s, TaskAck(slot)) && NotLost(job, s, t, x)
    ensures NotLost(job, AckTask(s, slot), t, x)
  {
    assert WorkOk(job, slot, s.busy[slot]);
    FitsIsHome(job, slot, s.busy[slot].payload);
  }

  lemma FinishLosesNothing(job: Job, s: Data, slot: Slot, t: nat, x: nat)
    requires ValidJob(job) && BusyOk(job, s.busy) && EnabledData(job, s, Acknowledge(slot)) && NotLost(job, s, t, x)
    ensures NotLost(job, FinishSlot(s, slot), t, x)
  {
    assert WorkOk(job, slot, s.busy[slot]);
    FitsIsHome(job, slot, s.busy[slot].payload);
  }

  lemma StepLosesNothing(job: Job, s: Data, step: Step, t: nat, x: nat)
    requires ValidJob(job) && Safe(job, s) && EnabledData(job, s, step) && IsClean(step) && NotLost(job, s, t, x)
    ensures NotLost(job, ApplyData(job, s, step), t, x)
  {
    match step
    case SourceNext(i) => NextLosesNothing(job, s, i, t, x);
    case SourceAck(i) => AckSourceLosesNothing(job, s, i, t, x);
    case Receive(m) => ReceiveLosesNothing(job, s, m, t, x);
    case Process(slot) => ProcessLosesNothing(job, s, slot, t, x);
    case TaskAck(slot) => AckTaskLosesNothing(job, s, slot, t, x);
    case Enqueue(slot) => PhaseLosesNothing(job, s, slot, Queued, t, x);
    case Record(slot) => PhaseLosesNothing(job, s, slot, Recorded, t, x);
    case Acknowledge(slot) => FinishLosesNothing(job, s, slot, t, x);
    case _ =>
  }

  lemma StartLosesNothing(job: Job, t: nat, x: nat)
    requires ValidJob(job)
    ensures NotLost(job, Start(job).data, t, x)
  {
    if t >= 2 {
      assert Home(job, t - 1, x) !in Start(job).data.busy;
    }
  }

  lemma NotLostAfter(job: Job, steps: seq<Step>, states: seq<State>, k: nat, t: nat, x: nat)
    requires ValidJob(job) && Run(job, steps, states) && k < |steps| && IsClean(steps[k])
    requires NotLost(job, states[k].data, t, x)
    ensures NotLost(job, states[k + 1].data, t, x)
  {
    RunsAreSafe(job, steps, states, k);
    DataAfter(job, steps, states, k);
    StepLosesNothing(job, states[k].data, steps[k], t, x);
  }

  lemma {:induction false} CleanRunsLoseNothing(job: Job, steps: seq<Step>, states: seq<State>, k: nat, t: nat, x: nat)
    requires ValidJob(job) && Run(job, steps, states) && AllClean(steps) && k < |states|
    ensures NotLost(job, states[k].data, t, x)
  {
    if k == 0 {
      StartLosesNothing(job, t, x);
    } else {
      CleanRunsLoseNothing(job, steps, states, k - 1, t, x);
      NotLostAfter(job, steps, states, k - 1, t, x);
    }
  }

  // ---------- nothing more to do with the tuples ----------

  /** No step is possible but failures, losses and resends. */
  ghost predicate Stuck(job: Job, s: State) {
    forall step {:trigger Enabled(job, s, step)} :: IsClean(step) ==> !Enabled(job, s, step)
  }

  ghost predicate AllNotLost(job: Job, s: Data)
    requires ValidJob(job)
  {
    forall t: nat, x: nat {:trigger NotLost(job, s, t, x)} :: NotLost(job, s, t, x)
  }

  lemma StuckWorkWaits(job: Job, s: State, slot: Slot)
    requires ValidJob(job) && Safe(job, s.data) && Stuck(job, s) && slot in s.data.busy
    ensures s.data.busy[slot].phase.Forwarded? && slot.stage < Depth(job) && slot == Home(job, slot.stage, slot.id)
  {
    assert WorkOk(job, slot, s.data.busy[slot]);
    FitsIsHome(job, slot, s.data.busy[slot].payload);
    assert !Enabled(job, s, Process(slot));
    assert !Enabled(job, s, Enqueue(slot));
    assert !Enabled(job, s, Record(slot));
    assert !Enabled(job, s, Acknowledge(slot));
  }

  lemma StuckMailWaits(job: Job, s: State, m: Message)
    requires ValidJob(job) && Stuck(job, s) && m in s.data.wire
    ensures SlotOf(m) in s.data.busy
  {
    assert !Enabled(job, s, Receive(m));
  }

  lemma StuckAckUnwanted(job: Job, s: State, t: nat, x: nat)
    requires ValidJob(job) && Stuck(job, s) && Awaited(job, s.data.sources, s.data.busy, t, x)
    ensures Ack(t, x) !in s.data.acks
  {
    if t == 1 {
      assert !Enabled(job, s, SourceAck(x % job.n));
    } else {
      assert !Enabled(job, s, TaskAck(Home(job, t - 1, x)));
    }
  }

  lemma StuckPassesOn(job: Job, s: State, t: nat, x: nat)
    requires ValidJob(job) && Safe(job, s.data) && Stuck(job, s) && NotLost(job, s.data, t, x)
    requires Awaited(job, s.data.sources, s.data.busy, t, x)
    ensures t < Depth(job) && Awaited(job, s.data.sources, s.data.busy, t + 1, x)
  {
    StuckAckUnwanted(job, s, t, x);
    if Letter(job, t, x) in s.data.wire {
      StuckMailWaits(job, s, Letter(job, t, x));
    }
    StuckWorkWaits(job, s, Home(job, t, x));
  }

  /** Nobody waits: the line would be in hand further and further down. */
  lemma {:induction false} StuckNotAwaited(job: Job, s: State, t: nat, x: nat)
    requires ValidJob(job) && Safe(job, s.data) && AllNotLost(job, s.data) && Stuck(job, s)
    ensures !Awaited(job, s.data.sources, s.data.busy, t, x)
    decreases Depth(job) + 1 - t
  {
    assert NotLost(job, s.data, t, x);
    if Awaited(job, s.data.sources, s.data.busy, t, x) {
      StuckPassesOn(job, s, t, x);
      StuckNotAwaited(job, s, t + 1, x);
    }
  }

  lemma StuckMeansEnded(job: Job, s: State)
    requires ValidJob(job) && Safe(job, s.data) && AllNotLost(job, s.data) && Stuck(job, s)
    ensures AllEnded(s.data.sources) && s.data.busy == map[]
  {
    forall i | 0 <= i < job.n ensures s.data.sources[i].Ended? {
      assert SourceOk(job, i, s.data.sources[i], s.data.history);
      assert !Enabled(job, s, SourceNext(i));
      if s.data.sources[i].Waiting? {
        StuckNotAwaited(job, s, 1, s.data.sources[i].at);
      }
    }
    forall slot ensures slot !in s.data.busy {
      if slot in s.data.busy {
        StuckWorkWaits(job, s, slot);
        assert WorkOk(job, slot, s.data.busy[slot]);
        StuckNotAwaited(job, s, slot.stage + 1, slot.id);
      }
    }
  }

  // ---------- no marker is lost ----------

  ghost predicate SentFrom(job: Job, e: Ends, at: Location) {
    MarkersFrom(job, at) <= e.markers + e.spent
  }

  /** Ended sources and tasks with a full count have sent their markers; every marker handled is counted,
      and by a counting task flushed for. */
  ghost predicate NoneMissing(job: Job, sources: seq<Source>, e: Ends) {
    && e.seen == e.spent
    && (forall i :: 0 <= i < |sources| && sources[i].Ended? ==> SentFrom(job, e, Location(0, i)))
    && (forall at :: at in e.broadcast ==> SentFrom(job, e, at))
    && (forall at: Location :: 1 <= at.stage < Depth(job) && CountOf(e.eofCount, at) >= job.n ==> at in e.broadcast)
    && (forall m: Marker :: m in e.spent && m.stage + 1 == Depth(job) ==> m.to in e.flushed)
    && (forall m :: m in e.markers ==> m.to < job.n)
  }

  lemma SourceMissesNone(job: Job, sources: seq<Source>, e: Ends, i: nat, src: Source)
    requires NoneMissing(job, sources, e) && i < |sources|
    ensures !src.Ended? ==> NoneMissing(job, sources[i := src], e)
    ensures NoneMissing(job, sources[i := Ended], e.(markers := e.markers + MarkersFrom(job, Location(0, i))))
  {}

  lemma CountMissesNone(job: Job, sources: seq<Source>, e: Ends, counts: seq<Counts>, m: Marker)
    requires ValidJob(job) && NoneMissing(job, sources, e) && m in e.markers && m.to < |counts|
    ensures NoneMissing(job, sources, TakeMarker(job, e, counts, m))
  {
    var at := Location(m.stage + 1, m.to);
    var e1 := MarkerCounted(e, m);
    assert e1.markers + e1.spent == e.markers + e.spent;
  }

  lemma StepMissesNone(job: Job, s: State, step: Step)
    requires ValidJob(job) && Enabled(job, s, step) && IsClean(step) && NoneMissing(job, s.data.sources, s.ends)
    ensures NoneMissing(job, Apply(job, s, step).data.sources, Apply(job, s, step).ends)
  {
    match step
    case SourceNext(i) => SourceMissesNone(job, s.data.sources, s.ends, i, NextSource(job, s.data, i).sources[i]);
    case SourceAck(i) => SourceMissesNone(job, s.data.sources, s.ends, i, AckSource(job, s.data, i).sources[i]);
    case ReceiveMarker(m) => CountMissesNone(job, s.data.sources, s.ends, s.data.counts, m);
    case _ => SourcesOnlyBySources(job, s.data, step);
  }

  lemma {:induction false} CleanRunsMissNone(job: Job, steps: seq<Step>, states: seq<State>, k: nat)
    requires ValidJob(job) && Run(job, steps, states) && AllClean(steps) && k < |states|
    ensures NoneMissing(job, states[k].data.sources, states[k].ends)
  {
    if k == 0 {
    } else {
      CleanRunsMissNone(job, steps, states, k - 1);
      assert Leads(job, steps, states, k - 1);
      StepMissesNone(job, states[k - 1], steps[k - 1]);
    }
  }

  // ---------- the state log ----------

  /** What a task knows as processed, or is about to, is in its state log or on the way there. */
  predicate Logged(s: Data, slot: Slot) {
    slot in s.done || (slot in s.busy && (s.busy[slot].phase.Queued? || s.busy[slot].phase.Recorded?)) ==>
      slot in s.queue || slot in s.log
  }

  lemma StepKeepsLogged(job: Job, s: Data, step: Step, slot: Slot)
    requires ValidJob(job) && EnabledData(job, s, step) && Logged(s, slot)
    ensures Logged(ApplyData(job, s, step), slot)
  {
    if step.Process? {
      ProcessCases(job, s, step.slot);
    }
  }

  /** In every run, with any failures: a task records and acknowledges only what it has handed to its state
      log, except what a crash takes with the queue; then it has forgotten it. */
  lemma {:induction false} RunsAreLogged(job: Job, steps: seq<Step>, states: seq<State>, k: nat, slot: Slot)
    requires ValidJob(job) && Run(job, steps, states) && k < |states|
    ensures Logged(states[k].data, slot)
  {
    if k == 0 {
    } else {
      RunsAreLogged(job, steps, states, k - 1, slot);
      DataAfter(job, steps, states, k - 1);
      StepKeepsLogged(job, states[k - 1].data, steps[k - 1], slot);
    }
  }

  lemma StuckQueueIsEmpty(job: Job, s: State)
    requires ValidJob(job) && Stuck(job, s)
    ensures s.data.queue == {}
  {
    if s.data.queue != {} {
      var slot :| slot in s.data.queue;
      assert Enabled(job, s, WriteLog(slot));
    }
  }

  // ---------- the end ----------

  lemma MarkerCanBeHandled(job: Job, s: State, m: Marker)
    requires ValidJob(job) && |s.data.counts| == job.n && m in s.ends.markers
    requires EndsOk(job, s.data.sources, s.ends) && NoneMissing(job, s.data.sources, s.ends)
    ensures Enabled(job, s, ReceiveMarker(m))
  {
    assert MarkerOk(job, s.data.sources, s.ends.spent, m);
  }

  lemma StuckMarkersHandled(job: Job, s: State)
    requires ValidJob(job) && Stuck(job, s) && |s.data.counts| == job.n
    requires EndsOk(job, s.data.sources, s.ends) && NoneMissing(job, s.data.sources, s.ends)
    ensures s.ends.markers == {}
  {
    if s.ends.markers != {} {
      var m :| m in s.ends.markers;
      MarkerCanBeHandled(job, s, m);
    }
  }

  /** A stage whose markers are all handled hands them on. */
  lemma StagePassesOn(job: Job, sources: seq<Source>, e: Ends, stage: nat, task: nat)
    requires EndsOk(job, sources, e) && NoneMissing(job, sources, e) && e.markers == {}
    requires 1 <= stage < Depth(job) && FromTasks(stage - 1, task, job.n) <= e.spent
    ensures MarkersFrom(job, Location(stage, task)) <= e.spent
  {
    var at := Location(stage, task);
    FromTasksSize(stage - 1, task, job.n);
    SubsetIsSmaller(FromTasks(stage - 1, task, job.n), SeenAt(e.seen, at));
    assert SentFrom(job, e, at);
  }

  lemma SubsetIsSmaller<T>(a: set<T>, b: set<T>)
    requires a <= b
    ensures |a| <= |b|
  {
    assert b == a + (b - a);
  }

  lemma {:induction false} AllMarkersHandled(job: Job, sources: seq<Source>, e: Ends, stage: nat, from: nat)
    requires EndsOk(job, sources, e) && NoneMissing(job, sources, e) && e.markers == {}
    requires AllEnded(sources) && |sources| == job.n && stage < Depth(job) && from < job.n
    ensures MarkersFrom(job, Location(stage, from)) <= e.spent
  {
    if stage == 0 {
      assert SentFrom(job, e, Location(0, from));
    } else {
      forall m | m in FromTasks(stage - 1, from, job.n) ensures m in e.spent {
        AllMarkersHandled(job, sources, e, stage - 1, m.from);
        assert m in MarkersFrom(job, Location(stage - 1, m.from));
      }
      StagePassesOn(job, sources, e, stage, from);
    }
  }

  /** A run without failures that can go no further is finished: every source has ended, nothing is in
      flight or in hand, every line is recorded and in the state log at every stage it reaches, all markers are
      handled, and every counting task has flushed. */
  lemma StuckMeansFinished(job: Job, steps: seq<Step>, states: seq<State>)
    requires ValidJob(job) && Run(job, steps, states) && AllClean(steps) && Stuck(job, states[|steps|])
    ensures var s := states[|steps|];
      && AllEnded(s.data.sources) && s.data.wire == multiset{} && s.data.acks == multiset{} && s.data.busy == map[]
      && (forall t: nat, x: nat :: Reaches(job, t, x) ==> Home(job, t, x) in s.data.done && Home(job, t, x) in s.data.log)
      && s.ends.markers == {}
      && forall d: nat :: d < job.n ==> d in s.ends.flushed
  {
    var k := |steps|;
    var s := states[k];
    RunsAreSafe(job, steps, states, k);
    RunsKeepEnds(job, steps, states, k);
    CleanRunsMissNone(job, steps, states, k);
    forall t: nat, x: nat ensures NotLost(job, s.data, t, x) {
      CleanRunsLoseNothing(job, steps, states, k, t, x);
    }
    StuckMeansEnded(job, s);
    CleanRunsAreTidy(job, steps, states, k);
    EndedMeansEmpty(job, s.data);
    RunsAreDeep(job, steps, states, k);
    StuckQueueIsEmpty(job, s);
    forall t: nat, x: nat | Reaches(job, t, x) ensures Home(job, t, x) in s.data.done && Home(job, t, x) in s.data.log {
      EndedMeansDone(job, s.data, t, x);
      RunsAreLogged(job, steps, states, k, Home(job, t, x));
    }
    StuckMarkersHandled(job, s);
    forall d: nat | d < job.n ensures d in s.ends.flushed {
      AllMarkersHandled(job, s.data.sources, s.ends, Depth(job) - 1, 0);
      assert Marker(Depth(job) - 1, 0, d) in MarkersFrom(job, Location(Depth(job) - 1, 0));
    }
  }
}
