/** When an end-of-stream marker leaves the first stage, nothing is in flight any more. */
module PipelineDrain {
  import opened Arithmetic
  import opened Maybe
  import opened Pipeline
  import opened PipelineSafety
  import opened PipelineEnds

  // ---------- processed everywhere ----------

  /** The slot where line `x` is handled at stage `t`, if it gets there. */
  function Home(job: Job, t: nat, x: nat): Slot
    requires ValidJob(job)
  {
    Slot(t, if 1 <= t <= Depth(job) && Arriving(job, t, x).Some? then Route(job, Arriving(job, t, x).value) else 0, x)
  }

  predicate Reaches(job: Job, t: nat, x: nat) {
    1 <= t <= Depth(job) && Arriving(job, t, x).Some?
  }

  lemma FitsIsHome(job: Job, slot: Slot, p: Payload)
    requires ValidJob(job) && Fits(job, slot, p)
    ensures slot == Home(job, slot.stage, slot.id) && Reaches(job, slot.stage, slot.id)
  {}

  /** Line `x` has been recorded as processed at every stage from `s` on that it reaches. */
  ghost predicate DoneFrom(job: Job, done: set<Slot>, s: nat, x: nat)
    requires ValidJob(job)
  {
    forall t: nat :: s <= t && Reaches(job, t, x) ==> Home(job, t, x) in done
  }

  ghost predicate AcksDeep(job: Job, acks: multiset<Ack>, done: set<Slot>)
    requires ValidJob(job)
  {
    forall a :: a in acks ==> DoneFrom(job, done, a.stage, a.id)
  }

  ghost predicate DoneDeep(job: Job, done: set<Slot>)
    requires ValidJob(job)
  {
    forall slot :: slot in done ==> DoneFrom(job, done, slot.stage, slot.id)
  }

  ghost predicate LateDeep(job: Job, busy: map<Slot, Work>, done: set<Slot>)
    requires ValidJob(job)
  {
    forall slot :: slot in busy && Late(busy[slot]) ==> DoneFrom(job, done, slot.stage + 1, slot.id)
  }

  ghost predicate SourceDeep(job: Job, i: nat, src: Source, done: set<Slot>)
    requires ValidJob(job)
  {
    forall x: nat :: x % job.n == i && Passed(job, src, x) ==> DoneFrom(job, done, 1, x)
  }

  ghost predicate SourcesDeep(job: Job, sources: seq<Source>, done: set<Slot>)
    requires ValidJob(job)
  {
    |sources| == job.n && forall i :: 0 <= i < job.n ==> SourceDeep(job, i, sources[i], done)
  }

  ghost predicate Deep(job: Job, s: Data)
    requires ValidJob(job)
  {
    AcksDeep(job, s.acks, s.done) && DoneDeep(job, s.done) && LateDeep(job, s.busy, s.done)
    && SourcesDeep(job, s.sources, s.done)
  }

  lemma FilteredIsDone(job: Job, done: set<Slot>, s: nat, x: nat)
    requires ValidJob(job) && s >= 1 && !Reaches(job, s, x)
    ensures DoneFrom(job, done, s, x)
  {
    forall t: nat | s <= t ensures !Reaches(job, t, x) {
      FilteredBefore(job, s, t, x);
    }
  }

  lemma FilteredBefore(job: Job, s: nat, t: nat, x: nat)
    requires 1 <= s <= t && !Reaches(job, s, x)
    ensures !Reaches(job, t, x)
  {
    if t <= Depth(job) {
      FilteredStaysFiltered(job, s, t, x);
    }
  }

  lemma DoneGrows(job: Job, done: set<Slot>, slot: Slot)
    requires ValidJob(job)
    ensures forall s: nat, x: nat :: DoneFrom(job, done, s, x) ==> DoneFrom(job, done + {slot}, s, x)
  {}

  lemma DoneHere(job: Job, done: set<Slot>, slot: Slot)
    requires ValidJob(job) && DoneFrom(job, done, slot.stage + 1, slot.id) && slot == Home(job, slot.stage, slot.id)
    ensures DoneFrom(job, done + {slot}, slot.stage, slot.id)
  {
    forall t: nat | slot.stage <= t && Reaches(job, t, slot.id) ensures Home(job, t, slot.id) in done + {slot} {
      assert t == slot.stage || slot.stage + 1 <= t;
    }
  }

  // ---------- one step without a crash keeps this ----------

  lemma SourceDeepNext(job: Job, i: nat, at: nat, done: set<Slot>)
    requires ValidJob(job) && i < job.n && at % job.n == i && DoneFrom(job, done, 1, at)
    requires forall x: nat :: x % job.n == i && x < at ==> DoneFrom(job, done, 1, x)
    ensures SourceDeep(job, i, Reading(at + job.n), done)
  {
    forall x: nat | x % job.n == i && x < at + job.n ensures DoneFrom(job, done, 1, x) {
      if x > at {
        ResidueGap(at, x, job.n);
      }
    }
  }

  lemma NextIsDeep(job: Job, s: Data, i: nat)
    requires ValidJob(job) && Safe(job, s) && SourcesDeep(job, s.sources, s.done)
    requires i < |s.sources| && s.sources[i].Reading?
    ensures SourcesDeep(job, NextSource(job, s, i).sources, s.done)
  {
    var x := s.sources[i].at;
    assert SourceOk(job, i, s.sources[i], s.history) && SourceDeep(job, i, s.sources[i], s.done);
    if x < |job.lines| && !IsTuple(job, x) {
      FilteredIsDone(job, s.done, 1, x);
      SourceDeepNext(job, i, x, s.done);
    }
  }

  lemma AckIsDeep(job: Job, s: Data, i: nat)
    requires ValidJob(job) && Safe(job, s) && SourcesDeep(job, s.sources, s.done) && AcksDeep(job, s.acks, s.done)
    requires i < |s.sources| && s.sources[i].Waiting? && Ack(1, s.sources[i].at) in s.acks
    ensures SourcesDeep(job, AckSource(job, s, i).sources, s.done)
  {
    var x := s.sources[i].at;
    assert SourceOk(job, i, s.sources[i], s.history) && SourceDeep(job, i, s.sources[i], s.done);
    assert DoneFrom(job, s.done, Ack(1, x).stage, Ack(1, x).id);
    SourceDeepNext(job, i, x, s.done);
  }

  lemma PutIsDeep(job: Job, busy: map<Slot, Work>, done: set<Slot>, slot: Slot, w: Work)
    requires ValidJob(job) && LateDeep(job, busy, done)
    requires Late(w) ==> DoneFrom(job, done, slot.stage + 1, slot.id)
    ensures LateDeep(job, busy[slot := w], done)
  {}

  lemma LastStageIsDone(job: Job, done: set<Slot>, x: nat)
    requires ValidJob(job)
    ensures DoneFrom(job, done, Depth(job) + 1, x)
  {}

  lemma DroppedIsDone(job: Job, done: set<Slot>, slot: Slot, p: Payload)
    requires ValidJob(job) && Fits(job, slot, p) && slot.stage < Depth(job)
    requires job.ops[slot.stage - 1](p) == None
    ensures DoneFrom(job, done, slot.stage + 1, slot.id)
  {
    NextArrival(job, slot.stage, slot.id);
    FilteredIsDone(job, done, slot.stage + 1, slot.id);
  }

  lemma ProcessIsDeep(job: Job, s: Data, slot: Slot)
    requires ValidJob(job) && BusyOk(job, s.busy) && LateDeep(job, s.busy, s.done)
    requires EnabledData(job, s, Process(slot))
    ensures LateDeep(job, ProcessSlot(job, s, slot).busy, s.done)
  {
    var w := s.busy[slot];
    assert WorkOk(job, slot, w);
    if slot.stage == Depth(job) {
      LastStageIsDone(job, s.done, slot.id);
      PutIsDeep(job, s.busy, s.done, slot, w.(phase := Processed));
    } else {
      var r := job.ops[slot.stage - 1](w.payload);
      if r.None? {
        DroppedIsDone(job, s.done, slot, w.payload);
        PutIsDeep(job, s.busy, s.done, slot, w.(phase := Processed));
      } else {
        PutIsDeep(job, s.busy, s.done, slot, w.(phase := Forwarded(r.value)));
      }
    }
  }

  lemma ProcessStepIsDeep(job: Job, s: Data, slot: Slot)
    requires ValidJob(job) && BusyOk(job, s.busy) && Deep(job, s) && EnabledData(job, s, Process(slot))
    ensures Deep(job, ProcessSlot(job, s, slot))
  {
    ProcessIsDeep(job, s, slot);
  }

  lemma RecordIsDeep(job: Job, s: Data, slot: Slot)
    requires ValidJob(job) && Safe(job, s) && Deep(job, s) && EnabledData(job, s, Record(slot))
    ensures Deep(job, RecordSlot(s, slot))
  {
    assert WorkOk(job, slot, s.busy[slot]) && Late(s.busy[slot]);
    FitsIsHome(job, slot, s.busy[slot].payload);
    DoneGrows(job, s.done, slot);
    DoneHere(job, s.done, slot);
    var done := s.done + {slot};
    forall i | 0 <= i < job.n ensures SourceDeep(job, i, s.sources[i], done) {
      assert SourceDeep(job, i, s.sources[i], s.done);
    }
  }

  lemma SourceStepIsDeep(job: Job, s: Data, step: Step)
    requires ValidJob(job) && Safe(job, s) && Deep(job, s) && EnabledData(job, s, step)
    requires step.SourceNext? || step.SourceResend? || step.SourceAck?
    ensures Deep(job, ApplyData(job, s, step))
  {
    match step
    case SourceNext(i) => NextIsDeep(job, s, i);
    case SourceAck(i) => AckIsDeep(job, s, i);
    case SourceResend(_) =>
  }

  lemma FinishIsDeep(job: Job, s: Data, slot: Slot)
    requires ValidJob(job) && Safe(job, s) && Deep(job, s) && EnabledData(job, s, Acknowledge(slot))
    ensures Deep(job, FinishSlot(s, slot))
  {
    assert slot in s.done;
    assert AcksDeep(job, s.acks + multiset{Ack(slot.stage, slot.id)}, s.done);
  }

  lemma AckTaskIsDeep(job: Job, s: Data, slot: Slot)
    requires ValidJob(job) && Deep(job, s) && EnabledData(job, s, TaskAck(slot))
    ensures Deep(job, AckTask(s, slot))
  {
    var a := Ack(slot.stage + 1, slot.id);
    assert DoneFrom(job, s.done, a.stage, a.id);
    PutIsDeep(job, s.busy, s.done, slot, s.busy[slot].(phase := Processed));
  }

  lemma EnqueueIsDeep(job: Job, s: Data, slot: Slot)
    requires ValidJob(job) && Deep(job, s) && EnabledData(job, s, Enqueue(slot))
    ensures Deep(job, EnqueueSlot(s, slot))
  {
    assert Late(s.busy[slot]);
    PutIsDeep(job, s.busy, s.done, slot, s.busy[slot].(phase := Queued));
  }

  lemma ReceiveIsDeep(job: Job, s: Data, m: Message)
    requires ValidJob(job) && Deep(job, s)
    ensures Deep(job, TakeMessage(s, m))
  {
    if SlotOf(m) in s.done {
      assert DoneFrom(job, s.done, SlotOf(m).stage, SlotOf(m).id);
    } else {
      PutIsDeep(job, s.busy, s.done, SlotOf(m), Work(m.payload, Checked));
    }
  }

  lemma LossIsDeep(job: Job, s: Data, step: Step)
    requires ValidJob(job) && Deep(job, s) && EnabledData(job, s, step)
    requires step.LoseMessage? || step.LoseAck? || step.TaskResend? || step.WriteLog? || step.ReceiveMarker?
    ensures Deep(job, ApplyData(job, s, step))
  {}

  lemma HandlingIsDeep(job: Job, s: Data, step: Step)
    requires ValidJob(job) && Safe(job, s) && Deep(job, s) && EnabledData(job, s, step)
    requires step.Process? || step.Receive? || step.TaskAck? || step.Enqueue?
    ensures Deep(job, ApplyData(job, s, step))
  {
    match step
    case Process(slot) => ProcessStepIsDeep(job, s, slot);
    case Receive(m) => ReceiveIsDeep(job, s, m);
    case TaskAck(slot) => AckTaskIsDeep(job, s, slot);
    case Enqueue(slot) => EnqueueIsDeep(job, s, slot);
  }

  lemma StepIsDeep(job: Job, s: Data, step: Step)
    requires ValidJob(job) && Safe(job, s) && Deep(job, s) && EnabledData(job, s, step) && !step.Crash?
    ensures Deep(job, ApplyData(job, s, step))
  {
    if step.SourceNext? || step.SourceResend? || step.SourceAck? {
      SourceStepIsDeep(job, s, step);
    } else if step.Process? || step.Receive? || step.TaskAck? || step.Enqueue? {
      HandlingIsDeep(job, s, step);
    } else if step.Record? {
      RecordIsDeep(job, s, step.slot);
    } else if step.Acknowledge? {
      FinishIsDeep(job, s, step.slot);
    } else {
      LossIsDeep(job, s, step);
    }
  }

  // ---------- every run without crashes ----------

  predicate NoCrash(steps: seq<Step>) {
    forall j :: 0 <= j < |steps| ==> !steps[j].Crash?
  }

  lemma DataAfter(job: Job, steps: seq<Step>, states: seq<State>, k: nat)
    requires ValidJob(job) && Run(job, steps, states) && k < |steps|
    ensures EnabledData(job, states[k].data, steps[k])
    ensures states[k + 1].data == ApplyData(job, states[k].data, steps[k])
  {
    assert Leads(job, steps, states, k);
  }

  lemma DeepAfter(job: Job, steps: seq<Step>, states: seq<State>, k: nat)
    requires ValidJob(job) && Run(job, steps, states) && k < |steps| && !steps[k].Crash?
    requires Deep(job, states[k].data)
    ensures Deep(job, states[k + 1].data)
  {
    RunsAreSafe(job, steps, states, k);
    DataAfter(job, steps, states, k);
    StepIsDeep(job, states[k].data, steps[k]);
  }

  lemma StartIsDeep(job: Job)
    requires ValidJob(job)
    ensures Deep(job, Start(job).data)
  {
    forall x: nat ensures x < job.n ==> x % job.n == x {
      if x < job.n {
        SmallResidue(job.n, x);
      }
    }
  }

  lemma {:induction false} RunsAreDeep(job: Job, steps: seq<Step>, states: seq<State>, k: nat)
    requires ValidJob(job) && Run(job, steps, states) && NoCrash(steps) && k < |states|
    ensures Deep(job, states[k].data)
  {
    if k == 0 {
      StartIsDeep(job);
    } else {
      RunsAreDeep(job, steps, states, k - 1);
      DeepAfter(job, steps, states, k - 1);
    }
  }

  /** The marker has been sent. */
  predicate Sent(s: State, m: Marker) {
    m in s.ends.markers || m in s.ends.spent
  }

  lemma EndedMeansDone(job: Job, s: Data, t: nat, x: nat)
    requires ValidJob(job) && SourcesDeep(job, s.sources, s.done) && AllEnded(s.sources) && Reaches(job, t, x)
    ensures Home(job, t, x) in s.done
  {
    if x < |job.lines| {
      assert SourceDeep(job, x % job.n, s.sources[x % job.n], s.done);
      assert DoneFrom(job, s.done, 1, x);
    }
  }

  /** In a run without crashes, whatever is lost and resent: once a task of stage 1 or later has
      broadcast its end-of-stream markers, every line has been recorded as processed at every stage it
      reaches. */
  lemma MarkerMeansRecorded(job: Job, steps: seq<Step>, states: seq<State>, k: nat, m: Marker)
    requires ValidJob(job) && Run(job, steps, states) && NoCrash(steps) && k < |states|
    requires m.stage >= 1 && Sent(states[k], m)
    ensures forall t: nat, x: nat :: Reaches(job, t, x) ==> Home(job, t, x) in states[k].data.done
  {
    var s := states[k];
    RunsAreDeep(job, steps, states, k);
    RunsKeepEnds(job, steps, states, k);
    assert MarkerOk(job, s.data.sources, s.ends.spent, m);
    forall t: nat, x: nat | Reaches(job, t, x) ensures Home(job, t, x) in s.data.done {
      EndedMeansDone(job, s.data, t, x);
    }
  }
}
