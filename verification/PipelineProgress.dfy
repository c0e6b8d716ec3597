/** Runs without failures come to an end: every step brings some part of the work further, and no part
    ever falls back. */
module PipelineProgress {
  import opened Maybe
  import opened Pipeline
  import opened PipelineSafety
  import opened PipelineEnds
  import opened PipelineDrain
  import opened PipelineClean
  import opened PipelineStuck
  import opened PipelineResults

  // ---------- how far each part is ----------

  /** How far a task is with a tuple: not seen, five phases, acknowledged. */
  function Level(s: Data, slot: Slot): nat {
    if slot in s.busy then
      match s.busy[slot].phase
      case Checked => 1
      case Forwarded(_) => 2
      case Processed => 3
      case Queued => 4
      case Recorded => 5
    else if slot in s.done then 6
    else 0
  }

  /** The source has sent line `x`, or skipped it. */
  predicate Reached(src: Source, x: nat) {
    match src
    case Reading(at) => x < at
    case Waiting(at) => x <= at
    case Ended => true
  }

  /** Line `x` has been sent to stage `t`. */
  predicate Fed(job: Job, s: Data, t: nat, x: nat)
    requires ValidJob(job)
  {
    if t == 1 then x % job.n < |s.sources| && Reached(s.sources[x % job.n], x)
    else t >= 2 && Level(s, Home(job, t - 1, x)) >= 2
  }

  function Slots(job: Job): set<Slot> {
    set t: nat, d: nat, x: nat | 1 <= t <= Depth(job) && d < job.n && x < |job.lines| :: Slot(t, d, x)
  }

  predicate SlotFine(job: Job, s: Data, slot: Slot)
    requires ValidJob(job)
  {
    && (Level(s, slot) > 0 ==> slot in Slots(job) && Fed(job, s, slot.stage, slot.id))
    && (slot in s.queue ==> slot !in s.log)
    && (slot in s.queue || slot in s.log ==> Level(s, slot) >= 4)
  }

  /** What is on its way has not been seen where it goes. */
  predicate MailFine(job: Job, s: Data, m: Message)
    requires ValidJob(job)
  {
    m in s.wire ==> Fed(job, s, m.stage, m.id) && Level(s, SlotOf(m)) == 0
  }

  predicate SourceFine(job: Job, src: Source) {
    (src.Reading? ==> src.at < |job.lines| + job.n) && (src.Waiting? ==> src.at < |job.lines|)
  }

  ghost predicate SourcesFine(job: Job, sources: seq<Source>) {
    forall i {:trigger sources[i]} :: 0 <= i < |sources| ==> SourceFine(job, sources[i])
  }

  ghost predicate Fine(job: Job, s: Data)
    requires ValidJob(job)
  {
    && (forall slot {:trigger SlotFine(job, s, slot)} :: SlotFine(job, s, slot))
    && (forall m {:trigger MailFine(job, s, m)} :: MailFine(job, s, m))
    && SourcesFine(job, s.sources)
  }

  // ---------- nothing falls back ----------

  lemma LevelRises(job: Job, s: Data, step: Step, slot: Slot)
    requires ValidJob(job) && NoRework(s.busy, s.done) && EnabledData(job, s, step) && IsClean(step)
    ensures Level(s, slot) <= Level(ApplyData(job, s, step), slot)
  {
    if step.Process? {
      ProcessRaises(job, s, step.slot);
    } else if step.SourceNext? {
      NextOnlySends(job, s, step.i);
    }
  }

  lemma ProcessRaises(job: Job, s: Data, slot: Slot)
    requires ValidJob(job) && EnabledData(job, s, Process(slot))
    ensures Level(s, slot) < Level(ProcessSlot(job, s, slot), slot)
    ensures forall o :: o != slot ==> Level(s, o) == Level(ProcessSlot(job, s, slot), o)
  {
    ProcessCases(job, s, slot);
  }

  lemma NextOnlySends(job: Job, s: Data, i: nat)
    requires ValidJob(job) && EnabledData(job, s, SourceNext(i))
    ensures NextSource(job, s, i).busy == s.busy && NextSource(job, s, i).done == s.done
  {}

  lemma SourceRises(job: Job, s: Data, step: Step, i: nat, x: nat)
    requires ValidJob(job) && EnabledData(job, s, step) && IsClean(step) && i < |s.sources|
    ensures |ApplyData(job, s, step).sources| == |s.sources|
    ensures Reached(s.sources[i], x) ==> Reached(ApplyData(job, s, step).sources[i], x)
  {
    if !step.SourceNext? && !step.SourceAck? {
      SourcesOnlyBySources(job, s, step);
    }
  }

  lemma FedStays(job: Job, s: Data, step: Step, t: nat, x: nat)
    requires ValidJob(job) && Safe(job, s) && EnabledData(job, s, step) && IsClean(step) && Fed(job, s, t, x)
    ensures Fed(job, ApplyData(job, s, step), t, x)
  {
    if t == 1 {
      SourceRises(job, s, step, x % job.n, x);
    } else {
      LevelRises(job, s, step, Home(job, t - 1, x));
    }
  }

  // ---------- every clean step keeps it fine ----------

  lemma FitsInSlots(job: Job, slot: Slot, p: Payload)
    requires ValidJob(job) && Fits(job, slot, p)
    ensures slot in Slots(job)
  {
    NoLineNoTuple(job, slot.stage, slot.id);
  }

  lemma NoLineNoTuple(job: Job, t: nat, x: nat)
    requires 1 <= t <= Depth(job)
    ensures x >= |job.lines| ==> Arriving(job, t, x).None?
  {
    if x >= |job.lines| {
      FilteredStaysFiltered(job, 1, t, x);
    }
  }

  /** Only receiving makes a tuple known at a task. */
  lemma SeenByReceiving(job: Job, s: Data, step: Step, slot: Slot)
    requires ValidJob(job) && EnabledData(job, s, step) && IsClean(step)
    requires Level(s, slot) == 0 < Level(ApplyData(job, s, step), slot)
    ensures step.Receive? && SlotOf(step.m) == slot
  {
    match step
    case Process(o) => ProcessCases(job, s, o);
    case _ =>
  }

  lemma QueuedByEnqueue(job: Job, s: Data, step: Step, slot: Slot)
    requires ValidJob(job) && EnabledData(job, s, step) && IsClean(step)
    ensures slot in ApplyData(job, s, step).queue ==>
      (slot in s.queue && step != WriteLog(slot)) || (step == Enqueue(slot) && Level(s, slot) == 3 && Level(ApplyData(job, s, step), slot) == 4)
    ensures slot in ApplyData(job, s, step).log ==> slot in s.log || (step == WriteLog(slot) && slot in s.queue)
  {
    match step
    case Process(o) => ProcessCases(job, s, o);
    case _ =>
  }

  lemma SlotStaysFine(job: Job, s: Data, step: Step, slot: Slot)
    requires ValidJob(job) && Safe(job, s) && EnabledData(job, s, step) && IsClean(step)
    requires SlotFine(job, s, slot) && (step.Receive? ==> MailFine(job, s, step.m))
    ensures SlotFine(job, ApplyData(job, s, step), slot)
  {
    LevelRises(job, s, step, slot);
    QueuedByEnqueue(job, s, step, slot);
    if Fed(job, s, slot.stage, slot.id) {
      FedStays(job, s, step, slot.stage, slot.id);
    }
    if Level(s, slot) == 0 < Level(ApplyData(job, s, step), slot) {
      SeenByReceiving(job, s, step, slot);
      FitsInSlots(job, slot, step.m.payload);
    }
  }

  lemma NewMailOfSource(job: Job, s: Data, i: nat, m: Message)
    requires ValidJob(job) && SourcesOk(job, s.sources, s.history) && EnabledData(job, s, SourceNext(i))
    requires m in NextSource(job, s, i).wire && m !in s.wire
    ensures Fed(job, NextSource(job, s, i), m.stage, m.id) && !Fed(job, s, m.stage, m.id)
  {
    assert SourceOk(job, i, s.sources[i], s.history);
  }

  lemma NewMailOfTask(job: Job, s: Data, slot: Slot, m: Message)
    requires ValidJob(job) && BusyOk(job, s.busy) && EnabledData(job, s, Process(slot))
    requires m in ProcessSlot(job, s, slot).wire && m !in s.wire
    ensures Fed(job, ProcessSlot(job, s, slot), m.stage, m.id) && !Fed(job, s, m.stage, m.id)
  {
    ProcessCases(job, s, slot);
    assert WorkOk(job, slot, s.busy[slot]);
    FitsIsHome(job, slot, s.busy[slot].payload);
  }

  /** New mail is either the next line of a source or what a task forwards. */
  lemma NewMail(job: Job, s: Data, step: Step, m: Message)
    requires ValidJob(job) && Safe(job, s) && EnabledData(job, s, step) && IsClean(step)
    requires m in ApplyData(job, s, step).wire && m !in s.wire
    ensures Fed(job, ApplyData(job, s, step), m.stage, m.id) && !Fed(job, s, m.stage, m.id)
    ensures !step.Receive?
  {
    match step
    case SourceNext(i) => NewMailOfSource(job, s, i, m);
    case Process(slot) => NewMailOfTask(job, s, slot, m);
    case _ =>
  }

  lemma MailStaysFine(job: Job, s: Data, step: Step, m: Message)
    requires ValidJob(job) && Safe(job, s) && Tidy(job, s) && EnabledData(job, s, step) && IsClean(step)
    requires MailFine(job, s, m) && SlotFine(job, s, SlotOf(m))
    ensures MailFine(job, ApplyData(job, s, step), m)
  {
    var s' := ApplyData(job, s, step);
    if m in s'.wire {
      if m in s.wire {
        FedStays(job, s, step, m.stage, m.id);
        if Level(s', SlotOf(m)) > 0 {
          SeenByReceiving(job, s, step, SlotOf(m));
          NoOther(job, s.wire, step.m);
        }
      } else {
        NewMail(job, s, step, m);
        if Level(s', SlotOf(m)) > 0 {
          SeenByReceiving(job, s, step, SlotOf(m));
        }
      }
    }
  }

  lemma NextStaysFine(job: Job, s: Data, j: nat, i: nat)
    requires ValidJob(job) && EnabledData(job, s, SourceNext(j)) && i < |s.sources| && SourceFine(job, s.sources[i])
    ensures |NextSource(job, s, j).sources| == |s.sources| && SourceFine(job, NextSource(job, s, j).sources[i])
  {}

  lemma AckStaysFine(job: Job, s: Data, j: nat, i: nat)
    requires ValidJob(job) && EnabledData(job, s, SourceAck(j)) && i < |s.sources| && SourceFine(job, s.sources[i])
    ensures |AckSource(job, s, j).sources| == |s.sources| && SourceFine(job, AckSource(job, s, j).sources[i])
  {}

  lemma SourcesStayFine(job: Job, s: Data, step: Step, i: nat)
    requires ValidJob(job) && EnabledData(job, s, step) && IsClean(step)
    requires i < |s.sources| && SourceFine(job, s.sources[i])
    ensures |ApplyData(job, s, step).sources| == |s.sources| && SourceFine(job, ApplyData(job, s, step).sources[i])
  {
    if step.SourceNext? {
      NextStaysFine(job, s, step.i, i);
    } else if step.SourceAck? {
      AckStaysFine(job, s, step.i, i);
    } else {
      SourcesOnlyBySources(job, s, step);
    }
  }

  lemma StepStaysFine(job: Job, s: Data, step: Step)
    requires ValidJob(job) && Safe(job, s) && Tidy(job, s) && Fine(job, s) && EnabledData(job, s, step) && IsClean(step)
    ensures Fine(job, ApplyData(job, s, step))
  {
    var s' := ApplyData(job, s, step);
    forall slot ensures SlotFine(job, s', slot) {
      assert SlotFine(job, s, slot);
      assert step.Receive? ==> MailFine(job, s, step.m);
      SlotStaysFine(job, s, step, slot);
    }
    forall m ensures MailFine(job, s', m) {
      assert MailFine(job, s, m) && SlotFine(job, s, SlotOf(m));
      MailStaysFine(job, s, step, m);
    }
    forall i | 0 <= i < |s'.sources| ensures SourceFine(job, s'.sources[i]) {
      SourceRises(job, s, step, 0, 0);
      SourcesStayFine(job, s, step, i);
    }
  }

  lemma StartIsFine(job: Job)
    requires ValidJob(job)
    ensures Fine(job, Start(job).data)
  {
    var s := Start(job).data;
    forall slot ensures SlotFine(job, s, slot) {
      assert Level(s, slot) == 0;
    }
  }

  lemma FineAfter(job: Job, steps: seq<Step>, states: seq<State>, k: nat)
    requires ValidJob(job) && Run(job, steps, states) && AllClean(steps) && k < |steps| && Fine(job, states[k].data)
    ensures Fine(job, states[k + 1].data)
  {
    RunsAreSafe(job, steps, states, k);
    CleanRunsAreTidy(job, steps, states, k);
    DataAfter(job, steps, states, k);
    StepStaysFine(job, states[k].data, steps[k]);
  }

  lemma {:induction false} CleanRunsAreFine(job: Job, steps: seq<Step>, states: seq<State>, k: nat)
    requires ValidJob(job) && Run(job, steps, states) && AllClean(steps) && k < |states|
    ensures Fine(job, states[k].data)
  {
    if k == 0 {
      StartIsFine(job);
    } else {
      CleanRunsAreFine(job, steps, states, k - 1);
      FineAfter(job, steps, states, k - 1);
    }
  }

  // ---------- the work of a job ----------

  /** The parts of the work: each tuple at each task, its entry in the state log, each source, each
      marker. */
  datatype Part = AtTask(slot: Slot) | InLog(slot: Slot) | OfSource(i: nat) | OfMarker(m: Marker)

  function Parts(job: Job): set<Part> {
    (set slot | slot in Slots(job) :: AtTask(slot)) + (set slot | slot in Slots(job) :: InLog(slot))
    + (set i: nat | i < job.n :: OfSource(i))
    + (set t: nat, d: nat, e: nat | t < Depth(job) && d < job.n && e < job.n :: OfMarker(Marker(t, d, e)))
  }

  function SourceLevel(job: Job, src: Source): nat {
    match src
    case Reading(at) => 2 * at
    case Waiting(at) => 2 * at + 1
    case Ended => 2 * (|job.lines| + job.n)
  }

  /** How far a part of the work is. */
  function PartLevel(job: Job, s: State, part: Part): nat {
    match part
    case AtTask(slot) => Level(s.data, slot)
    case InLog(slot) => if slot in s.data.log then 1 else 0
    case OfSource(i) => if i < |s.data.sources| then SourceLevel(job, s.data.sources[i]) else 0
    case OfMarker(m) => if m in s.ends.spent then 1 else 0
  }

  function Top(job: Job): nat {
    2 * (|job.lines| + job.n) + 6
  }

  lemma PartBelowTop(job: Job, s: State, part: Part)
    requires ValidJob(job) && SourcesFine(job, s.data.sources)
    ensures PartLevel(job, s, part) <= Top(job)
  {
    if part.OfSource? && part.i < |s.data.sources| {
      assert SourceFine(job, s.data.sources[part.i]);
    }
  }

  lemma PartRises(job: Job, s: State, step: Step, part: Part)
    requires ValidJob(job) && Safe(job, s.data) && SourcesFine(job, s.data.sources) && Enabled(job, s, step) && IsClean(step)
    ensures PartLevel(job, s, part) <= PartLevel(job, Apply(job, s, step), part)
  {
    match part
    case AtTask(slot) => LevelRises(job, s.data, step, slot);
    case InLog(slot) => LogGrows(job, s.data, step, slot);
    case OfSource(i) => SourceLevelRises(job, s.data, step, i);
    case OfMarker(m) => {}
  }

  lemma LogGrows(job: Job, s: Data, step: Step, slot: Slot)
    requires ValidJob(job) && EnabledData(job, s, step) && IsClean(step)
    ensures slot in s.log ==> slot in ApplyData(job, s, step).log
  {
    if step.Process? {
      ProcessCases(job, s, step.slot);
    }
  }

  lemma SourceLevelRises(job: Job, s: Data, step: Step, i: nat)
    requires ValidJob(job) && SourcesFine(job, s.sources) && EnabledData(job, s, step) && IsClean(step)
    ensures |ApplyData(job, s, step).sources| == |s.sources|
    ensures i < |s.sources| ==> SourceLevel(job, s.sources[i]) <= SourceLevel(job, ApplyData(job, s, step).sources[i])
    ensures i < |s.sources| && (step == SourceNext(i) || step == SourceAck(i)) ==>
      SourceLevel(job, s.sources[i]) < SourceLevel(job, ApplyData(job, s, step).sources[i])
  {
    if !step.SourceNext? && !step.SourceAck? {
      SourcesOnlyBySources(job, s, step);
    } else {
      assert SourceFine(job, s.sources[step.i]);
    }
  }

  /** The part of the work a step brings further. */
  function PartOfStep(step: Step): Part {
    match step
    case SourceNext(i) => OfSource(i)
    case SourceAck(i) => OfSource(i)
    case Receive(m) => AtTask(SlotOf(m))
    case Process(slot) => AtTask(slot)
    case TaskAck(slot) => AtTask(slot)
    case Enqueue(slot) => AtTask(slot)
    case Record(slot) => AtTask(slot)
    case Acknowledge(slot) => AtTask(slot)
    case WriteLog(slot) => InLog(slot)
    case ReceiveMarker(m) => OfMarker(m)
    case _ => OfSource(0)
  }

  lemma ReceiveRises(job: Job, s: Data, m: Message)
    requires ValidJob(job) && WireOk(job, s.wire) && Fine(job, s) && EnabledData(job, s, Receive(m))
    ensures SlotOf(m) in Slots(job)
    ensures Level(s, SlotOf(m)) < Level(TakeMessage(s, m), SlotOf(m))
  {
    assert MailFine(job, s, m);
    assert Fits(job, SlotOf(m), m.payload);
    FitsInSlots(job, SlotOf(m), m.payload);
  }

  lemma WorkRises(job: Job, s: Data, step: Step)
    requires ValidJob(job) && NoRework(s.busy, s.done) && Fine(job, s) && EnabledData(job, s, step) && IsClean(step)
    requires PartOfStep(step).AtTask? && !step.Receive?
    ensures step.slot in Slots(job)
    ensures Level(s, step.slot) < Level(ApplyData(job, s, step), step.slot)
  {
    assert SlotFine(job, s, step.slot);
    if step.Process? {
      ProcessRaises(job, s, step.slot);
    }
  }

  lemma InParts(job: Job, slot: Slot)
    requires slot in Slots(job)
    ensures AtTask(slot) in Parts(job) && InLog(slot) in Parts(job)
  {}

  lemma SourceStepRises(job: Job, s: State, step: Step)
    requires ValidJob(job) && Safe(job, s.data) && Fine(job, s.data) && Enabled(job, s, step)
    requires step.SourceNext? || step.SourceAck?
    ensures OfSource(step.i) in Parts(job)
    ensures PartLevel(job, s, OfSource(step.i)) < PartLevel(job, Apply(job, s, step), OfSource(step.i))
  {
    SourceLevelRises(job, s.data, step, step.i);
  }

  lemma LogStepRises(job: Job, s: State, slot: Slot)
    requires ValidJob(job) && Fine(job, s.data) && Enabled(job, s, WriteLog(slot))
    ensures slot in Slots(job)
    ensures PartLevel(job, s, InLog(slot)) < PartLevel(job, Apply(job, s, WriteLog(slot)), InLog(slot))
  {
    assert SlotFine(job, s.data, slot);
  }

  lemma MarkerStepRises(job: Job, s: State, m: Marker)
    requires ValidJob(job) && Safe(job, s.data) && Enabled(job, s, ReceiveMarker(m)) && EndsOk(job, s.data.sources, s.ends)
    ensures OfMarker(m) in Parts(job)
    ensures PartLevel(job, s, OfMarker(m)) < PartLevel(job, Apply(job, s, ReceiveMarker(m)), OfMarker(m))
  {
    assert MarkerOk(job, s.data.sources, s.ends.spent, m);
  }

  lemma StepRises(job: Job, s: State, step: Step)
    requires ValidJob(job) && Safe(job, s.data) && Fine(job, s.data) && Enabled(job, s, step) && IsClean(step)
    requires EndsOk(job, s.data.sources, s.ends)
    ensures PartOfStep(step) in Parts(job)
    ensures PartLevel(job, s, PartOfStep(step)) < PartLevel(job, Apply(job, s, step), PartOfStep(step))
  {
    if step.SourceNext? || step.SourceAck? {
      SourceStepRises(job, s, step);
    } else if step.Receive? {
      ReceiveRises(job, s.data, step.m);
      InParts(job, SlotOf(step.m));
    } else if step.WriteLog? {
      LogStepRises(job, s, step.slot);
      InParts(job, step.slot);
    } else if step.ReceiveMarker? {
      MarkerStepRises(job, s, step.marker);
    } else {
      WorkRises(job, s.data, step);
      InParts(job, step.slot);
    }
  }

  // ---------- the measure ----------

  /** What has been achieved: for each part the levels below the one it is at. */
  function Achieved(job: Job, s: State): set<(Part, nat)> {
    set part, k: nat | part in Parts(job) && k < PartLevel(job, s, part) :: (part, k)
  }

  function All(job: Job): set<(Part, nat)> {
    set part, k: nat | part in Parts(job) && k < Top(job) :: (part, k)
  }

  lemma SmallerSubset<T>(a: set<T>, b: set<T>)
    requires a <= b
    ensures |a| <= |b| && (a != b ==> |a| < |b|)
  {
    assert b == a + (b - a);
    if a != b {
      assert b - a != {};
    }
  }

  /** Nothing falls back, and one part gets further. */
  lemma Achieves(job: Job, s: State, s': State, part: Part)
    requires forall q :: q in Parts(job) ==> PartLevel(job, s, q) <= PartLevel(job, s', q)
    requires part in Parts(job) && PartLevel(job, s, part) < PartLevel(job, s', part)
    ensures |Achieved(job, s)| < |Achieved(job, s')|
  {
    var level := (part, PartLevel(job, s, part));
    assert level in Achieved(job, s') && level !in Achieved(job, s);
    SmallerSubset(Achieved(job, s), Achieved(job, s'));
  }

  lemma AchievedIsBounded(job: Job, s: State)
    requires ValidJob(job) && SourcesFine(job, s.data.sources)
    ensures |Achieved(job, s)| <= |All(job)|
  {
    forall q | q in Achieved(job, s) ensures q in All(job) {
      PartBelowTop(job, s, q.0);
    }
    SmallerSubset(Achieved(job, s), All(job));
  }

  lemma StepAchieves(job: Job, s: State, step: Step)
    requires ValidJob(job) && Safe(job, s.data) && Fine(job, s.data) && Enabled(job, s, step) && IsClean(step)
    requires EndsOk(job, s.data.sources, s.ends)
    ensures |Achieved(job, s)| < |Achieved(job, Apply(job, s, step))|
  {
    var s' := Apply(job, s, step);
    forall q | q in Parts(job) ensures PartLevel(job, s, q) <= PartLevel(job, s', q) {
      PartRises(job, s, step, q);
    }
    StepRises(job, s, step);
    Achieves(job, s, s', PartOfStep(step));
  }

  lemma {:induction false} StepsAreAchievements(job: Job, steps: seq<Step>, states: seq<State>, k: nat)
    requires ValidJob(job) && Run(job, steps, states) && AllClean(steps) && k < |states|
    ensures k <= |Achieved(job, states[k])|
  {
    if k == 0 {
    } else {
      StepsAreAchievements(job, steps, states, k - 1);
      RunsAreSafe(job, steps, states, k - 1);
      RunsKeepEnds(job, steps, states, k - 1);
      CleanRunsAreFine(job, steps, states, k - 1);
      assert Leads(job, steps, states, k - 1);
      StepAchieves(job, states[k - 1], steps[k - 1]);
    }
  }

  /** However the tasks are scheduled: a run without failures has no more steps than there are levels in
      the work of the job. */
  lemma CleanRunsAreBounded(job: Job, steps: seq<Step>, states: seq<State>)
    requires ValidJob(job) && Run(job, steps, states) && AllClean(steps)
    ensures |steps| <= |All(job)|
  {
    var s := states[|steps|];
    StepsAreAchievements(job, steps, states, |steps|);
    CleanRunsAreFine(job, steps, states, |steps|);
    AchievedIsBounded(job, s);
  }

  // ---------- every job comes to its end ----------

  lemma RunGrows(job: Job, steps: seq<Step>, states: seq<State>, step: Step)
    requires ValidJob(job) && Run(job, steps, states) && Enabled(job, states[|steps|], step)
    ensures Run(job, steps + [step], states + [Apply(job, states[|steps|], step)])
  {
    var steps', states' := steps + [step], states + [Apply(job, states[|steps|], step)];
    forall k: nat | k < |steps'| ensures Leads(job, steps', states', k) {
      if k < |steps| {
        assert Leads(job, steps, states, k);
      }
    }
  }

  /** Any run without failures can be continued without failures until it can go no further. */
  lemma CleanRunsCanEnd(job: Job, steps: seq<Step>, states: seq<State>) returns (more: seq<Step>, through: seq<State>)
    requires ValidJob(job) && Run(job, steps, states) && AllClean(steps)
    ensures Run(job, steps + more, states + through) && AllClean(steps + more) && |more| == |through|
    ensures Stuck(job, (states + through)[|steps + more|])
    decreases |All(job)| - |steps|
  {
    if Stuck(job, states[|steps|]) {
      more, through := [], [];
      assert steps + more == steps && states + through == states;
    } else {
      var step :| IsClean(step) && Enabled(job, states[|steps|], step);
      var next := Apply(job, states[|steps|], step);
      RunGrows(job, steps, states, step);
      CleanRunsAreBounded(job, steps + [step], states + [next]);
      var rest, past := CleanRunsCanEnd(job, steps + [step], states + [next]);
      more, through := [step] + rest, [next] + past;
      assert steps + more == steps + [step] + rest && states + through == states + [next] + past;
    }
  }

  /** What is there when a job has run without failures as far as it goes, with a stateless stage in
      between or one task per stage: every counting task has flushed its share of the sequential
      group-by over the whole file, and nothing is left to do. */
  lemma JobsEndWithGroupBy(job: Job, steps: seq<Step>, states: seq<State>)
    requires ValidJob(job) && MarkersWait(job) && Run(job, steps, states) && AllClean(steps)
    requires Stuck(job, states[|steps|])
    ensures var s := states[|steps|];
      && |steps| <= |All(job)|
      && AllEnded(s.data.sources) && s.data.wire == multiset{} && s.data.acks == multiset{} && s.data.busy == map[]
      && forall d: nat :: d < job.n ==>
           d in s.ends.flushed && s.ends.flushed[d] == PartOf(job, GroupBy(job, |job.lines|), d)
  {
    CleanRunsAreBounded(job, steps, states);
    StuckMeansFinished(job, steps, states);
    forall d: nat | d < job.n
      ensures states[|steps|].ends.flushed[d] == PartOf(job, GroupBy(job, |job.lines|), d)
    {
      FlushIsFinal(job, steps, states, d);
    }
  }
}
