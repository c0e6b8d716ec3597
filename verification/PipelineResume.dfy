/** After losses, repetitions and crashes: from which states a job can still be brought to its end, by
    resends and the ordinary steps. */
module PipelineResume {
  import opened Maybe
  import opened Pipeline
  import opened PipelineSafety
  import opened PipelineEnds
  import opened PipelineDrain
  import opened PipelineClean
  import opened PipelineStuck
  import opened PipelineProgress
  import opened PipelineResults

  // ---------- resending ----------

  /** The resend of whoever waits for line `x` at stage `t`. */
  function ResendTo(job: Job, t: nat, x: nat): Step
    requires ValidJob(job) && t >= 1
  {
    if t == 1 then SourceResend(x % job.n) else TaskResend(Home(job, t - 1, x))
  }

  lemma AwaitedReaches(job: Job, s: Data, t: nat, x: nat)
    requires ValidJob(job) && Safe(job, s) && Awaited(job, s.sources, s.busy, t, x)
    ensures t >= 1 && Reaches(job, t, x)
  {
    if t == 1 {
      assert SourceOk(job, x % job.n, s.sources[x % job.n], s.history);
    } else {
      assert WorkOk(job, Home(job, t - 1, x), s.busy[Home(job, t - 1, x)]);
    }
  }

  lemma SourceResends(job: Job, s: Data, x: nat)
    requires ValidJob(job) && Safe(job, s) && Awaited(job, s.sources, s.busy, 1, x)
    ensures Reaches(job, 1, x) && EnabledData(job, s, SourceResend(x % job.n))
    ensures Letter(job, 1, x) in ApplyData(job, s, SourceResend(x % job.n)).wire
  {
    assert SourceOk(job, x % job.n, s.sources[x % job.n], s.history);
  }

  lemma TaskResends(job: Job, s: Data, slot: Slot)
    requires ValidJob(job) && BusyOk(job, s.busy) && EnabledData(job, s, TaskResend(slot))
    ensures Reaches(job, slot.stage + 1, slot.id)
    ensures Letter(job, slot.stage + 1, slot.id) in ApplyData(job, s, TaskResend(slot)).wire
  {
    assert WorkOk(job, slot, s.busy[slot]);
  }

  /** Whoever waits for a line can resend it, and then it is on its way, with the payload it arrives with. */
  lemma ResendSends(job: Job, s: Data, t: nat, x: nat)
    requires ValidJob(job) && Safe(job, s) && Awaited(job, s.sources, s.busy, t, x)
    ensures t >= 1 && Reaches(job, t, x) && EnabledData(job, s, ResendTo(job, t, x))
    ensures Letter(job, t, x) in ApplyData(job, s, ResendTo(job, t, x)).wire
    ensures HasToken(job, ApplyData(job, s, ResendTo(job, t, x)), t, x)
  {
    AwaitedReaches(job, s, t, x);
    if t == 1 {
      SourceResends(job, s, x);
    } else {
      TaskResends(job, s, Home(job, t - 1, x));
    }
  }

  predicate IsResend(step: Step) {
    step.SourceResend? || step.TaskResend?
  }

  /** A resend changes nothing but what is on its way. */
  lemma ResendKeepsRest(job: Job, s: Data, step: Step)
    requires ValidJob(job) && EnabledData(job, s, step) && IsResend(step)
    ensures ApplyData(job, s, step) == s.(wire := ApplyData(job, s, step).wire)
  {}

  // ---------- what every step keeps ----------

  lemma StepKeepsSources(job: Job, s: Data, step: Step)
    requires ValidJob(job) && SourcesFine(job, s.sources) && EnabledData(job, s, step)
    ensures SourcesFine(job, ApplyData(job, s, step).sources)
  {
    if !step.SourceNext? && !step.SourceAck? {
      SourcesOnlyBySources(job, s, step);
    } else {
      forall i | 0 <= i < |s.sources| ensures SourceFine(job, ApplyData(job, s, step).sources[i]) {
        SourcesStayFine(job, s, step, i);
      }
    }
  }

  /** Who has ended or counted all its markers has sent its own; a counting task that has handled a marker
      has flushed. */
  ghost predicate Announced(job: Job, sources: seq<Source>, e: Ends) {
    && (forall i :: 0 <= i < |sources| && sources[i].Ended? ==> SentFrom(job, e, Location(0, i)))
    && (forall at :: at in e.broadcast ==> SentFrom(job, e, at))
    && (forall at: Location :: 1 <= at.stage < Depth(job) && CountOf(e.eofCount, at) >= job.n ==> SentFrom(job, e, at))
    && (forall m: Marker :: m in e.spent && m.stage + 1 == Depth(job) ==> m.to in e.flushed)
    && (forall m :: m in e.markers ==> m.to < job.n)
  }

  lemma SourceStaysAnnounced(job: Job, sources: seq<Source>, e: Ends, i: nat, src: Source)
    requires Announced(job, sources, e) && i < |sources|
    ensures !src.Ended? ==> Announced(job, sources[i := src], e)
    ensures Announced(job, sources[i := Ended], e.(markers := e.markers + MarkersFrom(job, Location(0, i))))
  {}

  lemma MarkerStaysAnnounced(job: Job, sources: seq<Source>, e: Ends, counts: seq<Counts>, m: Marker)
    requires ValidJob(job) && Announced(job, sources, e) && m in e.markers && m.to < |counts|
    ensures Announced(job, sources, TakeMarker(job, e, counts, m))
  {
    var e1 := MarkerCounted(e, m);
    assert e1.markers + e1.spent == e.markers + e.spent;
  }

  lemma CrashStaysAnnounced(job: Job, sources: seq<Source>, e: Ends, at: Location)
    requires ValidJob(job) && Announced(job, sources, e)
    ensures Announced(job, sources, CrashEnds(e, at))
  {
    var e' := CrashEnds(e, at);
    assert e'.markers == e.markers && e'.spent == e.spent;
    assert forall o: Location :: CountOf(e'.eofCount, o) >= job.n ==> o != at && CountOf(e.eofCount, o) >= job.n;
  }

  lemma StepStaysAnnounced(job: Job, s: State, step: Step)
    requires ValidJob(job) && Enabled(job, s, step) && Announced(job, s.data.sources, s.ends)
    ensures Announced(job, Apply(job, s, step).data.sources, Apply(job, s, step).ends)
  {
    match step
    case SourceNext(i) => SourceStaysAnnounced(job, s.data.sources, s.ends, i, NextSource(job, s.data, i).sources[i]);
    case SourceAck(i) => SourceStaysAnnounced(job, s.data.sources, s.ends, i, AckSource(job, s.data, i).sources[i]);
    case ReceiveMarker(m) => MarkerStaysAnnounced(job, s.data.sources, s.ends, s.data.counts, m);
    case Crash(at, _) => CrashStaysAnnounced(job, s.data.sources, s.ends, at);
    case _ => SourcesOnlyBySources(job, s.data, step);
  }

  /** What holds in every state of every run. */
  ghost predicate Sound(job: Job, s: State)
    requires ValidJob(job)
  {
    && Safe(job, s.data) && SourcesFine(job, s.data.sources)
    && EndsOk(job, s.data.sources, s.ends) && Announced(job, s.data.sources, s.ends)
  }

  lemma StepStaysSound(job: Job, s: State, step: Step)
    requires ValidJob(job) && Sound(job, s) && Enabled(job, s, step)
    ensures Sound(job, Apply(job, s, step))
  {
    StepKeepsSafe(job, s.data, step);
    StepKeepsSources(job, s.data, step);
    StepKeepsEnds(job, s, step);
    StepStaysAnnounced(job, s, step);
  }

  lemma StartIsSound(job: Job)
    requires ValidJob(job)
    ensures Sound(job, Start(job))
  {
    StartIsSafe(job);
    assert forall at :: SeenAt({}, at) == {};
  }

  lemma {:induction false} RunsAreSound(job: Job, steps: seq<Step>, states: seq<State>, k: nat)
    requires ValidJob(job) && Run(job, steps, states) && k < |states|
    ensures Sound(job, states[k])
  {
    if k == 0 {
      StartIsSound(job);
    } else {
      RunsAreSound(job, steps, states, k - 1);
      assert Leads(job, steps, states, k - 1);
      StepStaysSound(job, states[k - 1], steps[k - 1]);
    }
  }

  // ---------- markers lost in crashes ----------

  /** The task has handled a marker that it has forgotten in a crash, and has not sent its own. */
  ghost predicate Impaired(job: Job, e: Ends, at: Location) {
    && 1 <= at.stage < Depth(job) && at.task < job.n && !SentFrom(job, e, at)
    && exists m :: m in e.spent && m !in e.seen && m.stage + 1 == at.stage && m.to == at.task
  }

  ghost predicate Unimpaired(job: Job, e: Ends) {
    forall at {:trigger Impaired(job, e, at)} :: !Impaired(job, e, at)
  }

  /** A crash impairs a task that has counted a marker and has not sent its own. */
  lemma CrashImpairs(job: Job, s: State, at: Location, recovered: set<Slot>, m: Marker)
    requires ValidJob(job) && Enabled(job, s, Crash(at, recovered)) && EndsOk(job, s.data.sources, s.ends)
    requires at.task < job.n && m in s.ends.seen && m.stage + 1 == at.stage && m.to == at.task && !SentFrom(job, s.ends, at)
    ensures Impaired(job, ApplyEnds(job, s, Crash(at, recovered)), at)
  {}

  /** A crash leaves all other tasks alone; of its own work the restarted task knows exactly what it has read
      back, and has nothing in hand. */
  lemma CrashForgets(job: Job, s: Data, at: Location, recovered: set<Slot>, slot: Slot)
    requires ValidJob(job) && EnabledData(job, s, Crash(at, recovered))
    ensures var s' := ApplyData(job, s, Crash(at, recovered));
      && (!SlotAt(slot, at) ==> (slot in s'.done <==> slot in s.done) && (slot in s'.busy <==> slot in s.busy))
      && (!SlotAt(slot, at) && slot in s.busy ==> s'.busy[slot] == s.busy[slot])
      && (SlotAt(slot, at) ==> slot !in s'.busy && (slot in s'.done <==> slot in recovered))
      && s'.wire == s.wire && s'.acks == s.acks && s'.counts == s.counts && s'.log == s.log && s'.sources == s.sources
  {}

  /** So a line that was read back is acknowledged when it comes again, and not executed. */
  lemma RecoveredIsNotExecuted(job: Job, s: Data, at: Location, recovered: set<Slot>, m: Message)
    requires ValidJob(job) && EnabledData(job, s, Crash(at, recovered)) && m in s.wire && SlotOf(m) in recovered
    ensures var s' := ApplyData(job, s, Crash(at, recovered));
      && EnabledData(job, s', Receive(m))
      && Ack(m.stage, m.id) in ApplyData(job, s', Receive(m)).acks && SlotOf(m) !in ApplyData(job, s', Receive(m)).busy
  {}

  /** A loss takes one copy. */
  lemma LossTakesOne(job: Job, s: Data, m: Message, a: Ack)
    requires ValidJob(job)
    ensures m in s.wire ==> s.wire == ApplyData(job, s, LoseMessage(m)).wire + multiset{m}
    ensures a in s.acks ==> s.acks == ApplyData(job, s, LoseAck(a)).acks + multiset{a}
  {}

  // ---------- the end ----------

  /** All sources have ended, nothing is in hand, every task has sent its markers, all are handled, and every
      counting task has flushed. */
  ghost predicate Finished(job: Job, s: State) {
    && AllEnded(s.data.sources) && s.data.busy == map[]
    && (forall at: Location :: 1 <= at.stage < Depth(job) && at.task < job.n ==> SentFrom(job, s.ends, at))
    && s.ends.markers == {}
    && forall d: nat :: d < job.n ==> d in s.ends.flushed
  }

  /** A task to which all markers were sent, and by which all were handled, has sent its own, unless it has
      forgotten some. */
  lemma HandledMeansSent(job: Job, sources: seq<Source>, e: Ends, stage: nat, task: nat)
    requires EndsOk(job, sources, e) && Announced(job, sources, e) && !Impaired(job, e, Location(stage, task))
    requires 1 <= stage < Depth(job) && task < job.n && FromTasks(stage - 1, task, job.n) <= e.spent
    ensures SentFrom(job, e, Location(stage, task))
  {
    var at := Location(stage, task);
    FromTasksSize(stage - 1, task, job.n);
    if FromTasks(stage - 1, task, job.n) <= e.seen {
      SubsetIsSmaller(FromTasks(stage - 1, task, job.n), SeenAt(e.seen, at));
    } else {
      var m :| m in FromTasks(stage - 1, task, job.n) && m !in e.seen;
      assert m in e.spent && m.stage + 1 == at.stage && m.to == at.task;
    }
  }

  lemma {:induction false} EveryTaskSends(job: Job, sources: seq<Source>, e: Ends, stage: nat, from: nat)
    requires EndsOk(job, sources, e) && Announced(job, sources, e) && Unimpaired(job, e) && e.markers == {}
    requires AllEnded(sources) && |sources| == job.n && stage < Depth(job) && from < job.n
    ensures SentFrom(job, e, Location(stage, from))
  {
    if stage == 0 {
    } else {
      forall m | m in FromTasks(stage - 1, from, job.n) ensures m in e.spent {
        EveryTaskSends(job, sources, e, stage - 1, m.from);
        assert m in MarkersFrom(job, Location(stage - 1, m.from));
      }
      assert !Impaired(job, e, Location(stage, from));
      HandledMeansSent(job, sources, e, stage, from);
    }
  }

  /** With nothing in hand and all markers handled, nothing is left to do. */
  lemma NothingLeft(job: Job, s: State)
    requires ValidJob(job) && Sound(job, s) && Unimpaired(job, s.ends)
    requires AllEnded(s.data.sources) && s.data.busy == map[] && s.ends.markers == {}
    ensures Finished(job, s)
  {
    forall at: Location | 1 <= at.stage < Depth(job) && at.task < job.n ensures SentFrom(job, s.ends, at) {
      EveryTaskSends(job, s.data.sources, s.ends, at.stage, at.task);
    }
    forall d: nat | d < job.n ensures d in s.ends.flushed {
      EveryTaskSends(job, s.data.sources, s.ends, Depth(job) - 1, 0);
      assert Marker(Depth(job) - 1, 0, d) in MarkersFrom(job, Location(Depth(job) - 1, 0));
    }
  }

  // ---------- impairment stays as it is ----------

  predicate Resumes(step: Step) {
    IsClean(step) || IsResend(step)
  }

  lemma SentStaysSent(job: Job, s: State, step: Step, at: Location)
    requires ValidJob(job) && Enabled(job, s, step) && SentFrom(job, s.ends, at)
    ensures SentFrom(job, ApplyEnds(job, s, step), at)
  {}

  /** Only crashes impair. */
  lemma StaysUnimpaired(job: Job, s: State, step: Step)
    requires ValidJob(job) && Enabled(job, s, step) && !step.Crash? && Unimpaired(job, s.ends)
    ensures Unimpaired(job, ApplyEnds(job, s, step))
  {
    var e := ApplyEnds(job, s, step);
    forall at ensures !Impaired(job, e, at) {
      assert !Impaired(job, s.ends, at);
      if SentFrom(job, s.ends, at) {
        SentStaysSent(job, s, step, at);
      }
    }
  }

  /** A forgotten marker is never handled again. */
  lemma ForgottenForGood(job: Job, s: State, step: Step, m: Marker)
    requires ValidJob(job) && Enabled(job, s, step) && EndsOk(job, s.data.sources, s.ends)
    requires m in s.ends.spent && m !in s.ends.seen
    ensures m in ApplyEnds(job, s, step).spent && m !in ApplyEnds(job, s, step).seen
  {}

  /** And a task that has forgotten one never counts to the full number. */
  lemma NeverCountsAll(job: Job, sources: seq<Source>, e: Ends, m: Marker)
    requires ValidJob(job) && EndsOk(job, sources, e) && m in e.spent && m !in e.seen
    ensures CountOf(e.eofCount, Location(m.stage + 1, m.to)) < job.n
  {
    var at := Location(m.stage + 1, m.to);
    var all, here := FromTasks(m.stage, m.to, job.n), SeenAt(e.seen, at);
    assert MarkerOk(job, sources, e.spent, m) && m in all;
    forall o | o in here ensures o in all {
      assert MarkerOk(job, sources, e.spent, o);
    }
    FromTasksSize(m.stage, m.to, job.n);
    if |here| >= job.n {
      FullSubset(here, all);
    }
  }

  lemma TakenDoesNotSend(job: Job, s: State, m: Marker, at: Location)
    requires ValidJob(job) && Sound(job, s) && Enabled(job, s, ReceiveMarker(m)) && Impaired(job, s.ends, at)
    ensures !SentFrom(job, ApplyEnds(job, s, ReceiveMarker(m)), at)
  {
    var e := s.ends;
    var gone :| gone in e.spent && gone !in e.seen && gone.stage + 1 == at.stage && gone.to == at.task;
    var o :| o in MarkersFrom(job, at) && o !in e.markers + e.spent;
    var e1 := MarkerCounted(e, m);
    MarkerCountedKeeps(job, s.data.sources, e, m);
    NeverCountsAll(job, s.data.sources, e1, gone);
    assert o !in ApplyEnds(job, s, ReceiveMarker(m)).markers + ApplyEnds(job, s, ReceiveMarker(m)).spent;
  }

  /** Whatever happens, more crashes included: an impaired task stays impaired. */
  lemma StaysImpaired(job: Job, s: State, step: Step, at: Location)
    requires ValidJob(job) && Sound(job, s) && Enabled(job, s, step) && Impaired(job, s.ends, at)
    ensures Impaired(job, ApplyEnds(job, s, step), at)
  {
    var gone :| gone in s.ends.spent && gone !in s.ends.seen && gone.stage + 1 == at.stage && gone.to == at.task;
    ForgottenForGood(job, s, step, gone);
    if step.ReceiveMarker? {
      TakenDoesNotSend(job, s, step.marker, at);
    } else {
      var o :| o in MarkersFrom(job, at) && o !in s.ends.markers + s.ends.spent;
      assert o !in ApplyEnds(job, s, step).markers + ApplyEnds(job, s, step).spent;
    }
  }

  lemma {:induction false} ImpairedForGood(job: Job, steps: seq<Step>, states: seq<State>, j: nat, k: nat, at: Location)
    requires ValidJob(job) && Run(job, steps, states) && j <= k < |states| && Impaired(job, states[j].ends, at)
    ensures Impaired(job, states[k].ends, at)
  {
    if j == k {
    } else {
      ImpairedForGood(job, steps, states, j, k - 1, at);
      RunsAreSound(job, steps, states, k - 1);
      assert Leads(job, steps, states, k - 1);
      StaysImpaired(job, states[k - 1], steps[k - 1], at);
    }
  }

  // ---------- something can always be brought further ----------

  /** What resends and ordinary steps can do from a state. */
  ghost predicate Continues(job: Job, s: State, steps: seq<Step>, states: seq<State>)
    requires ValidJob(job)
  {
    && |steps| == |states| && (forall i :: 0 <= i < |steps| ==> Resumes(steps[i]))
    && forall i {:trigger LeadsOn(job, s, steps, states, i)} :: 0 <= i < |steps| ==> LeadsOn(job, s, steps, states, i)
  }

  ghost predicate LeadsOn(job: Job, s: State, steps: seq<Step>, states: seq<State>, i: nat)
    requires ValidJob(job) && i < |steps| == |states|
  {
    var before := if i == 0 then s else states[i - 1];
    Enabled(job, before, steps[i]) && states[i] == Apply(job, before, steps[i])
  }

  function LastOf(s: State, states: seq<State>): State {
    if states == [] then s else states[|states| - 1]
  }

  lemma OneStepContinues(job: Job, s: State, step: Step)
    requires ValidJob(job) && Enabled(job, s, step) && Resumes(step)
    ensures Continues(job, s, [step], [Apply(job, s, step)])
  {}

  lemma ContinuesOn(job: Job, s: State, steps: seq<Step>, states: seq<State>, more: seq<Step>, through: seq<State>)
    requires ValidJob(job) && Continues(job, s, steps, states) && Continues(job, LastOf(s, states), more, through)
    ensures Continues(job, s, steps + more, states + through)
    ensures LastOf(s, states + through) == LastOf(LastOf(s, states), through)
  {
    forall i | 0 <= i < |steps + more| ensures LeadsOn(job, s, steps + more, states + through, i) {
      if i < |steps| {
        assert LeadsOn(job, s, steps, states, i);
      } else {
        assert LeadsOn(job, LastOf(s, states), more, through, i - |steps|);
      }
    }
  }

  /** No part has fallen back. */
  ghost predicate NoLower(job: Job, s: State, s': State) {
    forall part {:trigger PartLevel(job, s', part)} :: part in Parts(job) ==> PartLevel(job, s, part) <= PartLevel(job, s', part)
  }

  ghost predicate Higher(job: Job, s: State, s': State, part: Part) {
    NoLower(job, s, s') && part in Parts(job) && PartLevel(job, s, part) < PartLevel(job, s', part)
  }

  lemma ResendLeavesParts(job: Job, s: State, step: Step)
    requires ValidJob(job) && Enabled(job, s, step) && IsResend(step)
    ensures NoLower(job, s, Apply(job, s, step))
  {
    ResendKeepsRest(job, s.data, step);
    forall part | part in Parts(job) ensures PartLevel(job, s, part) <= PartLevel(job, Apply(job, s, step), part) {
      match part
      case _ =>
    }
  }

  lemma NoneFallsBack(job: Job, s: State, step: Step)
    requires ValidJob(job) && Sound(job, s) && Enabled(job, s, step) && Resumes(step)
    ensures NoLower(job, s, Apply(job, s, step))
  {
    if IsResend(step) {
      ResendLeavesParts(job, s, step);
    } else {
      forall part | part in Parts(job) ensures PartLevel(job, s, part) <= PartLevel(job, Apply(job, s, step), part) {
        PartRises(job, s, step, part);
      }
    }
  }

  /** The step is possible and brings the part further. */
  ghost predicate Raises(job: Job, s: State, step: Step, part: Part)
    requires ValidJob(job)
  {
    Enabled(job, s, step) && IsClean(step) && Higher(job, s, Apply(job, s, step), part)
  }

  lemma StillHigher(job: Job, s: State, s1: State, s2: State, part: Part)
    requires NoLower(job, s, s1) && Higher(job, s1, s2, part)
    ensures Higher(job, s, s2, part)
  {
    forall q | q in Parts(job) ensures PartLevel(job, s, q) <= PartLevel(job, s2, q) {
      assert PartLevel(job, s, q) <= PartLevel(job, s1, q);
    }
  }

  lemma FittingPart(job: Job, slot: Slot, p: Payload)
    requires ValidJob(job) && Fits(job, slot, p)
    ensures AtTask(slot) in Parts(job) && slot.task < job.n && slot == Home(job, slot.stage, slot.id)
  {
    FitsInSlots(job, slot, p);
    InParts(job, slot);
    FitsIsHome(job, slot, p);
  }

  /** What a task does next with a tuple in hand, unless it waits. */
  function NextOf(slot: Slot, phase: Phase): Step {
    match phase
    case Checked => Process(slot)
    case Forwarded(_) => TaskResend(slot)
    case Processed => Enqueue(slot)
    case Queued => Record(slot)
    case Recorded => Acknowledge(slot)
  }

  lemma NextRaisesLevel(job: Job, s: Data, slot: Slot)
    requires ValidJob(job) && NoRework(s.busy, s.done) && slot in s.busy && !s.busy[slot].phase.Forwarded?
    requires EnabledData(job, s, NextOf(slot, s.busy[slot].phase))
    ensures Level(s, slot) < Level(ApplyData(job, s, NextOf(slot, s.busy[slot].phase)), slot)
  {
    if s.busy[slot].phase.Checked? {
      ProcessRaises(job, s, slot);
    }
  }

  lemma BusyRises(job: Job, s: State, slot: Slot)
    requires ValidJob(job) && Sound(job, s) && slot in s.data.busy && !s.data.busy[slot].phase.Forwarded?
    ensures Raises(job, s, NextOf(slot, s.data.busy[slot].phase), AtTask(slot))
  {
    NextIsPossible(job, s, slot);
    NoneFallsBack(job, s, NextOf(slot, s.data.busy[slot].phase));
    NextRaisesLevel(job, s.data, slot);
  }

  lemma NextIsPossible(job: Job, s: State, slot: Slot)
    requires ValidJob(job) && Sound(job, s) && slot in s.data.busy
    ensures Enabled(job, s, NextOf(slot, s.data.busy[slot].phase)) && AtTask(slot) in Parts(job)
  {
    assert WorkOk(job, slot, s.data.busy[slot]);
    FittingPart(job, slot, s.data.busy[slot].payload);
  }

  lemma ReadingRises(job: Job, s: State, i: nat)
    requires ValidJob(job) && Sound(job, s) && i < job.n && s.data.sources[i].Reading?
    ensures Raises(job, s, SourceNext(i), OfSource(i))
  {
    NoneFallsBack(job, s, SourceNext(i));
    SourceLevelRises(job, s.data, SourceNext(i), i);
  }

  /** Taking the acknowledgment of line `x` from stage `t`. */
  function TakeAck(job: Job, t: nat, x: nat): Step
    requires ValidJob(job) && t >= 1
  {
    if t == 1 then SourceAck(x % job.n) else TaskAck(Home(job, t - 1, x))
  }

  function Waiter(job: Job, t: nat, x: nat): Part
    requires ValidJob(job) && t >= 1
  {
    if t == 1 then OfSource(x % job.n) else AtTask(Home(job, t - 1, x))
  }

  lemma SourceAckRises(job: Job, s: State, i: nat)
    requires ValidJob(job) && Sound(job, s) && Enabled(job, s, SourceAck(i))
    ensures Raises(job, s, SourceAck(i), OfSource(i))
  {
    NoneFallsBack(job, s, SourceAck(i));
    SourceLevelRises(job, s.data, SourceAck(i), i);
  }

  lemma TaskAckRises(job: Job, s: State, slot: Slot)
    requires ValidJob(job) && Sound(job, s) && Enabled(job, s, TaskAck(slot))
    ensures Raises(job, s, TaskAck(slot), AtTask(slot))
  {
    NoneFallsBack(job, s, TaskAck(slot));
    assert WorkOk(job, slot, s.data.busy[slot]);
    FittingPart(job, slot, s.data.busy[slot].payload);
  }

  lemma AckRises(job: Job, s: State, t: nat, x: nat)
    requires ValidJob(job) && Sound(job, s) && Awaited(job, s.data.sources, s.data.busy, t, x) && Ack(t, x) in s.data.acks
    ensures t >= 1 && Raises(job, s, TakeAck(job, t, x), Waiter(job, t, x))
  {
    if t == 1 {
      SourceAckRises(job, s, x % job.n);
    } else {
      TaskAckRises(job, s, Home(job, t - 1, x));
    }
  }

  lemma ReceiveIsHigher(job: Job, s: State, t: nat, x: nat)
    requires ValidJob(job) && Sound(job, s) && Reaches(job, t, x) && Letter(job, t, x) in s.data.wire
    requires Home(job, t, x) !in s.data.busy && Home(job, t, x) !in s.data.done
    ensures Raises(job, s, Receive(Letter(job, t, x)), AtTask(Home(job, t, x)))
  {
    var m := Letter(job, t, x);
    assert Fits(job, SlotOf(m), m.payload);
    FittingPart(job, SlotOf(m), m.payload);
    NoneFallsBack(job, s, Receive(m));
  }

  /** A line that is known already is acknowledged at once. */
  lemma KnownIsAcknowledged(job: Job, s: State, t: nat, x: nat)
    requires ValidJob(job) && Sound(job, s) && Reaches(job, t, x) && Letter(job, t, x) in s.data.wire
    requires Home(job, t, x) !in s.data.busy && Home(job, t, x) in s.data.done
    requires Awaited(job, s.data.sources, s.data.busy, t, x)
    ensures Enabled(job, s, Receive(Letter(job, t, x)))
    ensures var s' := Apply(job, s, Receive(Letter(job, t, x)));
      && Ack(t, x) in s'.data.acks && Awaited(job, s'.data.sources, s'.data.busy, t, x) && NoLower(job, s, s')
  {
    NoneFallsBack(job, s, Receive(Letter(job, t, x)));
  }

  lemma ResendIsReady(job: Job, s: State, t: nat, x: nat)
    requires ValidJob(job) && Sound(job, s) && Awaited(job, s.data.sources, s.data.busy, t, x)
    requires Home(job, t, x) !in s.data.busy
    ensures t >= 1 && Enabled(job, s, ResendTo(job, t, x)) && Reaches(job, t, x)
    ensures var s' := Apply(job, s, ResendTo(job, t, x));
      && Sound(job, s') && NoLower(job, s, s') && Letter(job, t, x) in s'.data.wire
      && s'.data.done == s.data.done && s'.data.busy == s.data.busy && s'.data.sources == s.data.sources
  {
    ResendSends(job, s.data, t, x);
    ResendKeepsRest(job, s.data, ResendTo(job, t, x));
    StepStaysSound(job, s, ResendTo(job, t, x));
    NoneFallsBack(job, s, ResendTo(job, t, x));
  }

  /** After at most three steps, a resend first, either the line is in hand where it was awaited, or
      whoever waited has its acknowledgment. */
  lemma AwaitedRises(job: Job, s: State, t: nat, x: nat) returns (steps: seq<Step>, states: seq<State>, part: Part)
    requires ValidJob(job) && Sound(job, s) && Awaited(job, s.data.sources, s.data.busy, t, x)
    requires Home(job, t, x) !in s.data.busy
    ensures Continues(job, s, steps, states) && Higher(job, s, LastOf(s, states), part)
  {
    ResendIsReady(job, s, t, x);
    var resend, receive := ResendTo(job, t, x), Receive(Letter(job, t, x));
    var s1 := Apply(job, s, resend);
    OneStepContinues(job, s, resend);
    if Home(job, t, x) in s.data.done {
      var rest, past;
      rest, past, part := KnownRises(job, s1, t, x);
      StillHigher(job, s, s1, LastOf(s1, past), part);
      ContinuesOn(job, s, [resend], [s1], rest, past);
      steps, states := [resend] + rest, [s1] + past;
    } else {
      ReceiveIsHigher(job, s1, t, x);
      part := AtTask(Home(job, t, x));
      StillHigher(job, s, s1, Apply(job, s1, receive), part);
      OneStepContinues(job, s1, receive);
      ContinuesOn(job, s, [resend], [s1], [receive], [Apply(job, s1, receive)]);
      steps, states := [resend] + [receive], [s1] + [Apply(job, s1, receive)];
    }
  }

  /** The repeated line is received and acknowledged, and the acknowledgment is taken. */
  lemma KnownRises(job: Job, s: State, t: nat, x: nat) returns (steps: seq<Step>, states: seq<State>, part: Part)
    requires ValidJob(job) && Sound(job, s) && Reaches(job, t, x) && Letter(job, t, x) in s.data.wire
    requires Home(job, t, x) !in s.data.busy && Home(job, t, x) in s.data.done
    requires Awaited(job, s.data.sources, s.data.busy, t, x)
    ensures Continues(job, s, steps, states) && Higher(job, s, LastOf(s, states), part)
  {
    var receive, take := Receive(Letter(job, t, x)), TakeAck(job, t, x);
    KnownIsAcknowledged(job, s, t, x);
    var s1 := Apply(job, s, receive);
    StepStaysSound(job, s, receive);
    AckRises(job, s1, t, x);
    part := Waiter(job, t, x);
    StillHigher(job, s, s1, Apply(job, s1, take), part);
    OneStepContinues(job, s, receive);
    OneStepContinues(job, s1, take);
    ContinuesOn(job, s, [receive], [s1], [take], [Apply(job, s1, take)]);
    steps, states := [receive] + [take], [s1] + [Apply(job, s1, take)];
  }

  ghost predicate AllWait(busy: map<Slot, Work>) {
    forall slot :: slot in busy ==> busy[slot].phase.Forwarded?
  }

  /** Following a line downstream from where it is awaited leads to a stage that does not have it in hand. */
  lemma {:induction false} DeepestAwaited(job: Job, s: State, t: nat, x: nat) returns (deepest: nat)
    requires ValidJob(job) && Sound(job, s) && AllWait(s.data.busy) && Awaited(job, s.data.sources, s.data.busy, t, x)
    ensures Awaited(job, s.data.sources, s.data.busy, deepest, x) && Home(job, deepest, x) !in s.data.busy
    decreases Depth(job) + 1 - t
  {
    AwaitedReaches(job, s.data, t, x);
    if Home(job, t, x) in s.data.busy {
      assert WorkOk(job, Home(job, t, x), s.data.busy[Home(job, t, x)]);
      deepest := DeepestAwaited(job, s, t + 1, x);
    } else {
      deepest := t;
    }
  }

  lemma WaitingTaskAwaits(job: Job, s: State, slot: Slot)
    requires ValidJob(job) && Sound(job, s) && slot in s.data.busy && s.data.busy[slot].phase.Forwarded?
    ensures Awaited(job, s.data.sources, s.data.busy, slot.stage + 1, slot.id)
  {
    assert WorkOk(job, slot, s.data.busy[slot]);
    FitsIsHome(job, slot, s.data.busy[slot].payload);
  }

  lemma SomebodyAwaits(job: Job, s: State) returns (t: nat, x: nat)
    requires ValidJob(job) && Sound(job, s) && AllWait(s.data.busy)
    requires forall i :: 0 <= i < job.n ==> !s.data.sources[i].Reading?
    requires !(AllEnded(s.data.sources) && s.data.busy == map[])
    ensures Awaited(job, s.data.sources, s.data.busy, t, x)
  {
    if s.data.busy != map[] {
      var slot :| slot in s.data.busy;
      WaitingTaskAwaits(job, s, slot);
      t, x := slot.stage + 1, slot.id;
    } else {
      var i :| 0 <= i < |s.data.sources| && !s.data.sources[i].Ended?;
      assert SourceOk(job, i, s.data.sources[i], s.data.history);
      t, x := 1, s.data.sources[i].at;
    }
  }

  lemma MarkerRises(job: Job, s: State, m: Marker)
    requires ValidJob(job) && Sound(job, s) && m in s.ends.markers
    ensures Raises(job, s, ReceiveMarker(m), OfMarker(m))
  {
    assert MarkerOk(job, s.data.sources, s.ends.spent, m);
    NoneFallsBack(job, s, ReceiveMarker(m));
    MarkerStepRises(job, s, m);
  }

  /** Unless the job is finished, some part of the work can be brought further. */
  lemma GoFurther(job: Job, s: State) returns (steps: seq<Step>, states: seq<State>, part: Part)
    requires ValidJob(job) && Sound(job, s) && Unimpaired(job, s.ends) && !Finished(job, s)
    ensures Continues(job, s, steps, states) && Higher(job, s, LastOf(s, states), part)
  {
    if slot :| slot in s.data.busy && !s.data.busy[slot].phase.Forwarded? {
      steps, states, part := GoFurtherWith(job, s, NextOf(slot, s.data.busy[slot].phase), slot);
    } else if i :| 0 <= i < job.n && s.data.sources[i].Reading? {
      ReadingRises(job, s, i);
      OneStepContinues(job, s, SourceNext(i));
      steps, states, part := [SourceNext(i)], [Apply(job, s, SourceNext(i))], OfSource(i);
    } else if AllEnded(s.data.sources) && s.data.busy == map[] {
      if s.ends.markers == {} {
        NothingLeft(job, s);
      }
      var m :| m in s.ends.markers;
      MarkerRises(job, s, m);
      OneStepContinues(job, s, ReceiveMarker(m));
      steps, states, part := [ReceiveMarker(m)], [Apply(job, s, ReceiveMarker(m))], OfMarker(m);
    } else {
      var t, x := SomebodyAwaits(job, s);
      var deepest := DeepestAwaited(job, s, t, x);
      steps, states, part := AwaitedRises(job, s, deepest, x);
    }
  }

  lemma GoFurtherWith(job: Job, s: State, step: Step, slot: Slot) returns (steps: seq<Step>, states: seq<State>, part: Part)
    requires ValidJob(job) && Sound(job, s) && slot in s.data.busy && !s.data.busy[slot].phase.Forwarded?
    requires step == NextOf(slot, s.data.busy[slot].phase)
    ensures Continues(job, s, steps, states) && Higher(job, s, LastOf(s, states), part)
  {
    BusyRises(job, s, slot);
    OneStepContinues(job, s, step);
    steps, states, part := [step], [Apply(job, s, step)], AtTask(slot);
  }

  ghost predicate Resumable(job: Job, s: State)
    requires ValidJob(job)
  {
    Sound(job, s) && Unimpaired(job, s.ends)
  }

  lemma ResumingKeeps(job: Job, s: State, step: Step)
    requires ValidJob(job) && Resumable(job, s) && Enabled(job, s, step) && Resumes(step)
    ensures Resumable(job, Apply(job, s, step))
  {
    StepStaysSound(job, s, step);
    StaysUnimpaired(job, s, step);
  }

  lemma LastIsLed(job: Job, s: State, steps: seq<Step>, states: seq<State>, k: nat)
    requires ValidJob(job) && Continues(job, s, steps, states) && 0 < k <= |states|
    ensures var before := LastOf(s, states[..k - 1]);
      Enabled(job, before, steps[k - 1]) && Resumes(steps[k - 1]) && LastOf(s, states[..k]) == Apply(job, before, steps[k - 1])
  {
    assert LeadsOn(job, s, steps, states, k - 1);
  }

  lemma {:induction false} ContinuingKeeps(job: Job, s: State, steps: seq<Step>, states: seq<State>, k: nat)
    requires ValidJob(job) && Resumable(job, s) && Continues(job, s, steps, states) && k <= |states|
    ensures Resumable(job, LastOf(s, states[..k]))
  {
    if k == 0 {
    } else {
      ContinuingKeeps(job, s, steps, states, k - 1);
      LastIsLed(job, s, steps, states, k);
      ResumingKeeps(job, LastOf(s, states[..k - 1]), steps[k - 1]);
    }
  }

  lemma NothingContinues(job: Job, s: State)
    requires ValidJob(job)
    ensures Continues(job, s, [], [])
  {}

  /** From an unimpaired state, ordinary steps and resends lead to the end. */
  lemma ResumesToEnd(job: Job, s: State) returns (steps: seq<Step>, states: seq<State>)
    requires ValidJob(job) && Sound(job, s) && Unimpaired(job, s.ends)
    ensures Continues(job, s, steps, states) && Finished(job, LastOf(s, states))
    decreases |All(job)| - |Achieved(job, s)|
  {
    if Finished(job, s) {
      NothingContinues(job, s);
      steps, states := [], [];
    } else {
      var some, past, part := GoFurther(job, s);
      var s' := LastOf(s, past);
      ContinuingKeeps(job, s, some, past, |past|);
      assert past[..|past|] == past;
      Achieves(job, s, s', part);
      AchievedIsBounded(job, s');
      var rest, through := ResumesToEnd(job, s');
      ContinuesOn(job, s, some, past, rest, through);
      steps, states := some + rest, past + through;
    }
  }

  // ---------- main results ----------

  lemma RunContinues(job: Job, steps: seq<Step>, states: seq<State>, more: seq<Step>, through: seq<State>)
    requires ValidJob(job) && Run(job, steps, states) && Continues(job, states[|steps|], more, through)
    ensures Run(job, steps + more, states + through)
  {
    forall k: nat | k < |steps + more| ensures Leads(job, steps + more, states + through, k) {
      if k < |steps| {
        assert Leads(job, steps, states, k);
      } else {
        assert LeadsOn(job, states[|steps|], more, through, k - |steps|);
      }
    }
  }

  /** Some continuation, of whatever steps, finishes the job. */
  ghost predicate CanFinish(job: Job, steps: seq<Step>, states: seq<State>)
    requires ValidJob(job) && Run(job, steps, states)
  {
    exists more: seq<Step>, through: seq<State> :: FinishesWith(job, steps, states, more, through)
  }

  ghost predicate FinishesWith(job: Job, steps: seq<Step>, states: seq<State>, more: seq<Step>, through: seq<State>)
    requires ValidJob(job) && Run(job, steps, states)
  {
    Run(job, steps + more, states + through) && Finished(job, (states + through)[|steps + more|])
  }

  /** After any run, with any crashes, losses and repetitions: the job can be finished if and only if no task
      has forgotten a marker in a crash before it sent its own. */
  lemma CanFinishIff(job: Job, steps: seq<Step>, states: seq<State>)
    requires ValidJob(job) && Run(job, steps, states)
    ensures CanFinish(job, steps, states) <==> Unimpaired(job, states[|steps|].ends)
  {
    if Unimpaired(job, states[|steps|].ends) {
      var more, through := FinishAfter(job, steps, states);
    } else {
      var at :| Impaired(job, states[|steps|].ends, at);
      forall more: seq<Step>, through: seq<State> ensures !FinishesWith(job, steps, states, more, through) {
        if Run(job, steps + more, states + through) {
          assert (states + through)[|steps|] == states[|steps|];
          ImpairedForGood(job, steps + more, states + through, |steps|, |steps + more|, at);
        }
      }
    }
  }

  lemma FinishAfter(job: Job, steps: seq<Step>, states: seq<State>) returns (more: seq<Step>, through: seq<State>)
    requires ValidJob(job) && Run(job, steps, states) && Unimpaired(job, states[|steps|].ends)
    ensures FinishesWith(job, steps, states, more, through)
    ensures forall i :: 0 <= i < |more| ==> Resumes(more[i])
  {
    var s := states[|steps|];
    RunsAreSound(job, steps, states, |steps|);
    more, through := ResumesToEnd(job, s);
    RunContinues(job, steps, states, more, through);
    assert (states + through)[|steps + more|] == LastOf(s, through);
  }

  lemma {:induction false} NoCrashUnimpaired(job: Job, steps: seq<Step>, states: seq<State>, k: nat)
    requires ValidJob(job) && Run(job, steps, states) && NoCrash(steps) && k < |states|
    ensures Unimpaired(job, states[k].ends)
  {
    if k == 0 {
    } else {
      NoCrashUnimpaired(job, steps, states, k - 1);
      assert Leads(job, steps, states, k - 1);
      StaysUnimpaired(job, states[k - 1], steps[k - 1]);
    }
  }

  /** With a stateless stage in between or one task per stage: whatever has been lost, repeated or, without
      a marker forgotten, crashed, resends and ordinary steps bring the job to an end in which every counting
      task has flushed exactly its share of the group-by over the whole file. */
  lemma ResumesToGroupBy(job: Job, steps: seq<Step>, states: seq<State>) returns (more: seq<Step>, through: seq<State>)
    requires ValidJob(job) && MarkersWait(job) && Run(job, steps, states)
    requires NoCrash(steps) || Unimpaired(job, states[|steps|].ends)
    ensures FinishesWith(job, steps, states, more, through)
    ensures forall i :: 0 <= i < |more| ==> Resumes(more[i])
    ensures var s := (states + through)[|steps + more|];
      forall d: nat :: d < job.n ==> d in s.ends.flushed && s.ends.flushed[d] == PartOf(job, GroupBy(job, |job.lines|), d)
  {
    if NoCrash(steps) {
      NoCrashUnimpaired(job, steps, states, |steps|);
    }
    more, through := FinishAfter(job, steps, states);
    forall d: nat | d < job.n
      ensures (states + through)[|steps + more|].ends.flushed[d] == PartOf(job, GroupBy(job, |job.lines|), d)
    {
      FlushIsFinal(job, steps + more, states + through, d);
    }
  }
}
