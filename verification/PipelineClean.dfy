/** Runs without failures: at any time a tuple is at most at one place of each stage, and somebody
    upstream is waiting for it there. */
module PipelineClean {
  import opened Arithmetic
  import opened Maybe
  import opened Pipeline
  import opened PipelineSafety
  import opened PipelineEnds
  import opened PipelineDrain

  // ---------- who is waited for ----------

  /** Line `x` is awaited at stage `t`: its source, or the task of the stage before, waits for the
      acknowledgment. */
  predicate Awaited(job: Job, sources: seq<Source>, busy: map<Slot, Work>, t: nat, x: nat)
    requires ValidJob(job)
  {
    if t == 1 then x % job.n < |sources| && sources[x % job.n] == Waiting(x)
    else t >= 2 && Home(job, t - 1, x) in busy && busy[Home(job, t - 1, x)].phase.Forwarded?
  }

  ghost function AwaitedSet(job: Job, sources: seq<Source>, busy: map<Slot, Work>): iset<(nat, nat)>
    requires ValidJob(job)
  {
    iset q: (nat, nat) | Awaited(job, sources, busy, q.0, q.1)
  }

  // ---------- tokens ----------

  ghost predicate WireTokens(live: iset<(nat, nat)>, wire: multiset<Message>, acks: multiset<Ack>, slots: set<Slot>) {
    forall m :: m in wire ==>
      wire[m] == 1 && (m.stage, m.id) in live && SlotOf(m) !in slots && Ack(m.stage, m.id) !in acks
  }

  ghost predicate SlotToken(job: Job, live: iset<(nat, nat)>, acks: multiset<Ack>, slot: Slot)
    requires ValidJob(job)
  {
    (slot.stage, slot.id) in live && Ack(slot.stage, slot.id) !in acks && slot == Home(job, slot.stage, slot.id)
  }

  ghost predicate SlotTokens(job: Job, live: iset<(nat, nat)>, acks: multiset<Ack>, slots: set<Slot>)
    requires ValidJob(job)
  {
    forall slot {:trigger SlotToken(job, live, acks, slot)} :: slot in slots ==> SlotToken(job, live, acks, slot)
  }

  ghost predicate AckTokens(live: iset<(nat, nat)>, acks: multiset<Ack>) {
    forall a :: a in acks ==> acks[a] == 1 && (a.stage, a.id) in live
  }

  /** For each line and stage there is at most one message, task at work or acknowledgment, and only
      where the line is awaited. */
  ghost predicate Tokens(job: Job, live: iset<(nat, nat)>, wire: multiset<Message>, acks: multiset<Ack>, slots: set<Slot>)
    requires ValidJob(job)
  {
    WireTokens(live, wire, acks, slots) && SlotTokens(job, live, acks, slots) && AckTokens(live, acks)
  }

  lemma ConsumeAck(job: Job, live: iset<(nat, nat)>, wire: multiset<Message>, acks: multiset<Ack>, slots: set<Slot>, a: Ack)
    requires ValidJob(job) && Tokens(job, live, wire, acks, slots) && a in acks
    ensures Tokens(job, live - iset{(a.stage, a.id)}, wire, acks - multiset{a}, slots)
  {
    forall slot | slot in slots ensures SlotToken(job, live - iset{(a.stage, a.id)}, acks - multiset{a}, slot) {
      assert SlotToken(job, live, acks, slot);
    }
  }

  lemma SendToken(job: Job, live: iset<(nat, nat)>, wire: multiset<Message>, acks: multiset<Ack>, slots: set<Slot>, m: Message)
    requires ValidJob(job) && Tokens(job, live, wire, acks, slots) && (m.stage, m.id) !in live
    ensures Tokens(job, live + iset{(m.stage, m.id)}, wire + multiset{m}, acks, slots)
  {
    assert m !in wire;
    assert SlotOf(m) in slots ==> SlotToken(job, live, acks, SlotOf(m));
    forall slot | slot in slots ensures SlotToken(job, live + iset{(m.stage, m.id)}, acks, slot) {
      assert SlotToken(job, live, acks, slot);
    }
  }

  lemma SamePlace(job: Job, m: Message, o: Message)
    requires ValidJob(job) && Fits(job, SlotOf(m), m.payload) && Fits(job, SlotOf(o), o.payload)
    requires m.stage == o.stage && m.id == o.id
    ensures m == o
  {}

  lemma NoOther(job: Job, wire: multiset<Message>, m: Message)
    requires ValidJob(job) && WireOk(job, wire) && m in wire && wire[m] == 1
    ensures forall o :: o in wire - multiset{m} ==> o.stage != m.stage || o.id != m.id
  {
    forall o | o in wire - multiset{m} ensures o.stage != m.stage || o.id != m.id {
      assert o in wire && o != m;
      if o.stage == m.stage && o.id == m.id {
        SamePlace(job, m, o);
      }
    }
  }

  lemma TakeToken(job: Job, live: iset<(nat, nat)>, wire: multiset<Message>, acks: multiset<Ack>, slots: set<Slot>, m: Message)
    requires ValidJob(job) && Tokens(job, live, wire, acks, slots) && WireOk(job, wire) && m in wire
    ensures Tokens(job, live, wire - multiset{m}, acks, slots + {SlotOf(m)})
  {
    NoOther(job, wire, m);
    FitsIsHome(job, SlotOf(m), m.payload);
    forall slot | slot in slots + {SlotOf(m)} ensures SlotToken(job, live, acks, slot) {
      assert slot in slots ==> SlotToken(job, live, acks, slot);
    }
  }

  lemma AnswerToken(job: Job, live: iset<(nat, nat)>, wire: multiset<Message>, acks: multiset<Ack>, slots: set<Slot>, m: Message)
    requires ValidJob(job) && Tokens(job, live, wire, acks, slots) && WireOk(job, wire) && m in wire
    ensures Tokens(job, live, wire - multiset{m}, acks + multiset{Ack(m.stage, m.id)}, slots)
  {
    NoOther(job, wire, m);
    FitsIsHome(job, SlotOf(m), m.payload);
    forall slot | slot in slots ensures SlotToken(job, live, acks + multiset{Ack(m.stage, m.id)}, slot) {
      assert SlotToken(job, live, acks, slot);
    }
  }

  lemma FinishToken(job: Job, live: iset<(nat, nat)>, wire: multiset<Message>, acks: multiset<Ack>, slots: set<Slot>, slot: Slot)
    requires ValidJob(job) && Tokens(job, live, wire, acks, slots) && WireOk(job, wire) && slot in slots
    ensures Tokens(job, live, wire, acks + multiset{Ack(slot.stage, slot.id)}, slots - {slot})
  {
    assert SlotToken(job, live, acks, slot);
    forall m | m in wire ensures Ack(m.stage, m.id) != Ack(slot.stage, slot.id) {
      FitsIsHome(job, SlotOf(m), m.payload);
    }
    forall o | o in slots - {slot} ensures SlotToken(job, live, acks + multiset{Ack(slot.stage, slot.id)}, o) {
      assert SlotToken(job, live, acks, o);
    }
  }

  // ---------- how the awaited lines change ----------

  lemma SourceWaits(job: Job, sources: seq<Source>, busy: map<Slot, Work>, i: nat, x: nat)
    requires ValidJob(job) && |sources| == job.n && i < job.n && !sources[i].Waiting? && x % job.n == i
    ensures AwaitedSet(job, sources[i := Waiting(x)], busy) == AwaitedSet(job, sources, busy) + iset{(1, x)}
    ensures (1, x) !in AwaitedSet(job, sources, busy)
  {
    forall t: nat, y: nat ensures
      Awaited(job, sources[i := Waiting(x)], busy, t, y) <==> Awaited(job, sources, busy, t, y) || (t == 1 && y == x)
    {
      SourceAwaits(job, sources, busy, i, Waiting(x), t, y);
    }
  }

  lemma SourceAwaits(job: Job, sources: seq<Source>, busy: map<Slot, Work>, i: nat, src: Source, t: nat, y: nat)
    requires ValidJob(job) && |sources| == job.n && i < job.n
    ensures Awaited(job, sources[i := src], busy, t, y) <==>
      if t == 1 && y % job.n == i then src == Waiting(y) else Awaited(job, sources, busy, t, y)
  {}

  lemma SourceRests(job: Job, sources: seq<Source>, busy: map<Slot, Work>, i: nat, src: Source)
    requires ValidJob(job) && |sources| == job.n && i < job.n && !sources[i].Waiting? && !src.Waiting?
    ensures AwaitedSet(job, sources[i := src], busy) == AwaitedSet(job, sources, busy)
  {
    forall t: nat, y: nat ensures Awaited(job, sources[i := src], busy, t, y) <==> Awaited(job, sources, busy, t, y) {
      SourceAwaits(job, sources, busy, i, src, t, y);
    }
  }

  lemma SourceServed(job: Job, sources: seq<Source>, busy: map<Slot, Work>, i: nat, src: Source)
    requires ValidJob(job) && |sources| == job.n && i < job.n && sources[i].Waiting? && !src.Waiting?
    requires sources[i].at % job.n == i
    ensures AwaitedSet(job, sources[i := src], busy) == AwaitedSet(job, sources, busy) - iset{(1, sources[i].at)}
  {
    forall t: nat, y: nat ensures Awaited(job, sources[i := src], busy, t, y) <==>
      Awaited(job, sources, busy, t, y) && !(t == 1 && y == sources[i].at)
    {
      SourceAwaits(job, sources, busy, i, src, t, y);
    }
  }

  predicate Waits(busy: map<Slot, Work>, slot: Slot) {
    slot in busy && busy[slot].phase.Forwarded?
  }

  lemma TaskAwaits(job: Job, sources: seq<Source>, busy: map<Slot, Work>, busy': map<Slot, Work>, slot: Slot, t: nat, y: nat)
    requires ValidJob(job) && forall o :: o != slot ==> (Waits(busy, o) <==> Waits(busy', o))
    requires AtHome(job, slot)
    ensures Awaited(job, sources, busy', t, y) <==>
      if t == slot.stage + 1 && y == slot.id then Waits(busy', slot) else Awaited(job, sources, busy, t, y)
  {
    if t >= 2 {
      assert Waits(busy', Home(job, t - 1, y)) <==> Awaited(job, sources, busy', t, y);
      assert Waits(busy, Home(job, t - 1, y)) <==> Awaited(job, sources, busy, t, y);
    }
  }

  lemma TaskWaits(job: Job, sources: seq<Source>, busy: map<Slot, Work>, busy': map<Slot, Work>, slot: Slot)
    requires ValidJob(job) && forall o :: o != slot ==> (Waits(busy, o) <==> Waits(busy', o))
    requires AtHome(job, slot)
    ensures !Waits(busy, slot) && !Waits(busy', slot) ==>
      AwaitedSet(job, sources, busy') == AwaitedSet(job, sources, busy)
    ensures !Waits(busy, slot) && Waits(busy', slot) ==>
      AwaitedSet(job, sources, busy') == AwaitedSet(job, sources, busy) + iset{(slot.stage + 1, slot.id)}
      && (slot.stage + 1, slot.id) !in AwaitedSet(job, sources, busy)
    ensures Waits(busy, slot) && !Waits(busy', slot) ==>
      AwaitedSet(job, sources, busy') == AwaitedSet(job, sources, busy) - iset{(slot.stage + 1, slot.id)}
  {
    forall t: nat, y: nat ensures
      && (Awaited(job, sources, busy', t, y) <==>
            if t == slot.stage + 1 && y == slot.id then Waits(busy', slot) else Awaited(job, sources, busy, t, y))
      && (t == slot.stage + 1 && y == slot.id ==> (Awaited(job, sources, busy, t, y) <==> Waits(busy, slot)))
    {
      TaskAwaits(job, sources, busy, busy', slot, t, y);
    }
  }

  // ---------- one clean step ----------

  ghost predicate Tidy(job: Job, s: Data)
    requires ValidJob(job)
  {
    Tokens(job, AwaitedSet(job, s.sources, s.busy), s.wire, s.acks, s.busy.Keys)
  }

  lemma NextIsTidy(job: Job, s: Data, i: nat)
    requires ValidJob(job) && Tidy(job, s) && |s.sources| == job.n && i < job.n && s.sources[i].Reading?
    requires s.sources[i].at % job.n == i
    ensures Tidy(job, NextSource(job, s, i))
  {
    var x := s.sources[i].at;
    if x >= |job.lines| {
      SourceRests(job, s.sources, s.busy, i, Ended);
    } else if !IsTuple(job, x) {
      SourceRests(job, s.sources, s.busy, i, Reading(x + job.n));
    } else {
      var p := SourceTuple(job, x);
      SourceWaits(job, s.sources, s.busy, i, x);
      SendToken(job, AwaitedSet(job, s.sources, s.busy), s.wire, s.acks, s.busy.Keys, Message(1, Route(job, p), x, p));
    }
  }

  lemma AckSourceIsTidy(job: Job, s: Data, i: nat)
    requires ValidJob(job) && Tidy(job, s) && |s.sources| == job.n && i < job.n && s.sources[i].Waiting?
    requires s.sources[i].at % job.n == i && Ack(1, s.sources[i].at) in s.acks
    ensures Tidy(job, AckSource(job, s, i))
  {
    var x := s.sources[i].at;
    SourceServed(job, s.sources, s.busy, i, Reading(x + job.n));
    ConsumeAck(job, AwaitedSet(job, s.sources, s.busy), s.wire, s.acks, s.busy.Keys, Ack(1, x));
  }

  predicate AtHome(job: Job, slot: Slot)
    requires ValidJob(job)
  {
    slot.stage >= 1 && slot == Home(job, slot.stage, slot.id)
  }

  lemma TidyAtHome(job: Job, s: Data, slot: Slot)
    requires ValidJob(job) && Tidy(job, s) && slot in s.busy
    ensures AtHome(job, slot)
  {
    assert SlotToken(job, AwaitedSet(job, s.sources, s.busy), s.acks, slot);
  }

  /** Changing the work in hand at `slot` between phases that do not wait. */
  lemma RestingPhase(job: Job, sources: seq<Source>, busy: map<Slot, Work>, slot: Slot, w: Work)
    requires ValidJob(job) && AtHome(job, slot) && !Waits(busy, slot) && !w.phase.Forwarded?
    ensures AwaitedSet(job, sources, busy[slot := w]) == AwaitedSet(job, sources, busy)
    ensures busy[slot := w].Keys == busy.Keys + {slot}
  {
    TaskWaits(job, sources, busy, busy[slot := w], slot);
  }

  lemma WaitingPhase(job: Job, sources: seq<Source>, busy: map<Slot, Work>, slot: Slot, q: Payload)
    requires ValidJob(job) && slot in busy && AtHome(job, slot) && !Waits(busy, slot)
    ensures var busy' := busy[slot := busy[slot].(phase := Forwarded(q))];
      && AwaitedSet(job, sources, busy') == AwaitedSet(job, sources, busy) + iset{(slot.stage + 1, slot.id)}
      && (slot.stage + 1, slot.id) !in AwaitedSet(job, sources, busy)
      && busy'.Keys == busy.Keys
  {
    TaskWaits(job, sources, busy, busy[slot := busy[slot].(phase := Forwarded(q))], slot);
  }

  lemma ServedPhase(job: Job, sources: seq<Source>, busy: map<Slot, Work>, slot: Slot)
    requires ValidJob(job) && slot in busy && AtHome(job, slot) && Waits(busy, slot)
    ensures var busy' := busy[slot := busy[slot].(phase := Processed)];
      && AwaitedSet(job, sources, busy') == AwaitedSet(job, sources, busy) - iset{(slot.stage + 1, slot.id)}
      && busy'.Keys == busy.Keys
  {
    TaskWaits(job, sources, busy, busy[slot := busy[slot].(phase := Processed)], slot);
  }

  lemma LeavingPhase(job: Job, sources: seq<Source>, busy: map<Slot, Work>, slot: Slot)
    requires ValidJob(job) && slot in busy && AtHome(job, slot) && !Waits(busy, slot)
    ensures AwaitedSet(job, sources, busy - {slot}) == AwaitedSet(job, sources, busy)
    ensures (busy - {slot}).Keys == busy.Keys - {slot}
  {
    TaskWaits(job, sources, busy, busy - {slot}, slot);
  }

  lemma ReceiveIsTidy(job: Job, s: Data, m: Message)
    requires ValidJob(job) && Tidy(job, s) && WireOk(job, s.wire) && m in s.wire && SlotOf(m) !in s.busy
    ensures Tidy(job, TakeMessage(s, m))
  {
    var live := AwaitedSet(job, s.sources, s.busy);
    if SlotOf(m) in s.done {
      AnswerToken(job, live, s.wire, s.acks, s.busy.Keys, m);
    } else {
      TakeToken(job, live, s.wire, s.acks, s.busy.Keys, m);
      FitsIsHome(job, SlotOf(m), m.payload);
      RestingPhase(job, s.sources, s.busy, SlotOf(m), Work(m.payload, Checked));
    }
  }

  lemma PhaseIsTidy(job: Job, s: Data, slot: Slot, phase: Phase)
    requires ValidJob(job) && Tidy(job, s) && slot in s.busy
    requires !s.busy[slot].phase.Forwarded? && !phase.Forwarded?
    ensures Tidy(job, SetPhase(s, slot, phase))
  {
    TidyAtHome(job, s, slot);
    RestingPhase(job, s.sources, s.busy, slot, s.busy[slot].(phase := phase));
    assert s.busy.Keys + {slot} == s.busy.Keys;
  }

  lemma ForwardTokens(job: Job, sources: seq<Source>, busy: map<Slot, Work>, wire: multiset<Message>, acks: multiset<Ack>,
                      slot: Slot, q: Payload, m: Message)
    requires ValidJob(job) && slot in busy && AtHome(job, slot) && busy[slot].phase == Checked
    requires Tokens(job, AwaitedSet(job, sources, busy), wire, acks, busy.Keys)
    requires m.stage == slot.stage + 1 && m.id == slot.id
    ensures var busy' := busy[slot := busy[slot].(phase := Forwarded(q))];
      Tokens(job, AwaitedSet(job, sources, busy'), wire + multiset{m}, acks, busy'.Keys)
  {
    var live := AwaitedSet(job, sources, busy);
    var busy' := busy[slot := busy[slot].(phase := Forwarded(q))];
    WaitingPhase(job, sources, busy, slot, q);
    SendToken(job, live, wire, acks, busy.Keys, m);
    assert AwaitedSet(job, sources, busy') == live + iset{(m.stage, m.id)};
  }

  lemma ForwardIsTidy(job: Job, s: Data, slot: Slot, q: Payload)
    requires ValidJob(job) && Tidy(job, s) && slot in s.busy
    requires s.busy[slot].phase == Checked
    ensures Tidy(job, ForwardSlot(job, s, slot, q))
  {
    TidyAtHome(job, s, slot);
    ForwardTokens(job, s.sources, s.busy, s.wire, s.acks, slot, q, Message(slot.stage + 1, Route(job, q), slot.id, q));
  }

  lemma AckTaskIsTidy(job: Job, s: Data, slot: Slot)
    requires ValidJob(job) && Tidy(job, s) && slot in s.busy
    requires s.busy[slot].phase.Forwarded? && Ack(slot.stage + 1, slot.id) in s.acks
    ensures Tidy(job, AckTask(s, slot))
  {
    TidyAtHome(job, s, slot);
    ServedPhase(job, s.sources, s.busy, slot);
    ConsumeAck(job, AwaitedSet(job, s.sources, s.busy), s.wire, s.acks, s.busy.Keys, Ack(slot.stage + 1, slot.id));
  }

  lemma FinishIsTidy(job: Job, s: Data, slot: Slot)
    requires ValidJob(job) && Tidy(job, s) && WireOk(job, s.wire) && slot in s.busy
    requires s.busy[slot].phase.Recorded?
    ensures Tidy(job, FinishSlot(s, slot))
  {
    TidyAtHome(job, s, slot);
    LeavingPhase(job, s.sources, s.busy, slot);
    FinishToken(job, AwaitedSet(job, s.sources, s.busy), s.wire, s.acks, s.busy.Keys, slot);
  }

  lemma SourceStepIsTidy(job: Job, s: Data, step: Step)
    requires ValidJob(job) && Safe(job, s) && Tidy(job, s) && EnabledData(job, s, step)
    requires step.SourceNext? || step.SourceAck?
    ensures Tidy(job, ApplyData(job, s, step))
  {
    var i := step.i;
    assert SourceOk(job, i, s.sources[i], s.history);
    if step.SourceNext? {
      NextIsTidy(job, s, i);
    } else {
      AckSourceIsTidy(job, s, i);
    }
  }

  lemma CountIsTidy(job: Job, s: Data, slot: Slot)
    requires ValidJob(job) && Tidy(job, s) && slot in s.busy
    requires s.busy[slot].phase == Checked && slot.task < |s.counts|
    ensures Tidy(job, CountSlot(s, slot))
  {
    PhaseIsTidy(job, s, slot, Processed);
  }

  lemma ProcessCases(job: Job, s: Data, slot: Slot)
    requires ValidJob(job) && EnabledData(job, s, Process(slot))
    ensures slot.stage == Depth(job) ==> ProcessSlot(job, s, slot) == CountSlot(s, slot)
    ensures slot.stage < Depth(job) ==>
      var r := job.ops[slot.stage - 1](s.busy[slot].payload);
      ProcessSlot(job, s, slot) == if r.None? then SetPhase(s, slot, Processed) else ForwardSlot(job, s, slot, r.value)
  {}

  lemma ProcessIsTidy(job: Job, s: Data, slot: Slot)
    requires ValidJob(job) && Tidy(job, s) && EnabledData(job, s, Process(slot))
    ensures Tidy(job, ProcessSlot(job, s, slot))
  {
    ProcessCases(job, s, slot);
    if slot.stage == Depth(job) {
      CountIsTidy(job, s, slot);
    } else {
      var r := job.ops[slot.stage - 1](s.busy[slot].payload);
      if r.None? {
        PhaseIsTidy(job, s, slot, Processed);
      } else {
        ForwardIsTidy(job, s, slot, r.value);
      }
    }
  }

  lemma RecordingIsTidy(job: Job, s: Data, step: Step)
    requires ValidJob(job) && Tidy(job, s) && EnabledData(job, s, step)
    requires step.Enqueue? || step.Record? || step.WriteLog?
    ensures Tidy(job, ApplyData(job, s, step))
  {
    match step
    case Enqueue(slot) => PhaseIsTidy(job, s, slot, Queued);
    case Record(slot) => PhaseIsTidy(job, s, slot, Recorded);
    case WriteLog(_) =>
  }

  lemma StepCases(job: Job, s: Data, step: Step)
    requires ValidJob(job) && EnabledData(job, s, step)
    ensures step.Receive? ==> ApplyData(job, s, step) == TakeMessage(s, step.m)
    ensures step.Process? ==> ApplyData(job, s, step) == ProcessSlot(job, s, step.slot)
    ensures step.TaskAck? ==> ApplyData(job, s, step) == AckTask(s, step.slot)
    ensures step.Acknowledge? ==> ApplyData(job, s, step) == FinishSlot(s, step.slot)
  {}

  lemma ReceiveStepIsTidy(job: Job, s: Data, step: Step)
    requires ValidJob(job) && WireOk(job, s.wire) && Tidy(job, s) && EnabledData(job, s, step) && step.Receive?
    ensures Tidy(job, ApplyData(job, s, step))
  {
    StepCases(job, s, step);
    ReceiveIsTidy(job, s, step.m);
  }

  lemma ProcessStepIsTidy(job: Job, s: Data, step: Step)
    requires ValidJob(job) && Tidy(job, s) && EnabledData(job, s, step) && step.Process?
    ensures Tidy(job, ApplyData(job, s, step))
  {
    StepCases(job, s, step);
    ProcessIsTidy(job, s, step.slot);
  }

  lemma AckStepIsTidy(job: Job, s: Data, step: Step)
    requires ValidJob(job) && Tidy(job, s) && EnabledData(job, s, step) && step.TaskAck?
    ensures Tidy(job, ApplyData(job, s, step))
  {
    StepCases(job, s, step);
    AckTaskIsTidy(job, s, step.slot);
  }

  lemma FinishStepIsTidy(job: Job, s: Data, step: Step)
    requires ValidJob(job) && WireOk(job, s.wire) && Tidy(job, s) && EnabledData(job, s, step) && step.Acknowledge?
    ensures Tidy(job, ApplyData(job, s, step))
  {
    StepCases(job, s, step);
    FinishIsTidy(job, s, step.slot);
  }

  lemma StepIsTidy(job: Job, s: Data, step: Step)
    requires ValidJob(job) && Safe(job, s) && Tidy(job, s) && EnabledData(job, s, step) && IsClean(step)
    ensures Tidy(job, ApplyData(job, s, step))
  {
    if step.SourceNext? || step.SourceAck? {
      SourceStepIsTidy(job, s, step);
    } else if step.Receive? {
      ReceiveStepIsTidy(job, s, step);
    } else if step.Process? {
      ProcessStepIsTidy(job, s, step);
    } else if step.TaskAck? {
      AckStepIsTidy(job, s, step);
    } else if step.Acknowledge? {
      FinishStepIsTidy(job, s, step);
    } else if !step.ReceiveMarker? {
      RecordingIsTidy(job, s, step);
    }
  }

  // ---------- every clean run ----------

  predicate AllClean(steps: seq<Step>) {
    forall j :: 0 <= j < |steps| ==> IsClean(steps[j])
  }

  lemma TidyAfter(job: Job, steps: seq<Step>, states: seq<State>, k: nat)
    requires ValidJob(job) && Run(job, steps, states) && k < |steps| && IsClean(steps[k])
    requires Tidy(job, states[k].data)
    ensures Tidy(job, states[k + 1].data)
  {
    RunsAreSafe(job, steps, states, k);
    DataAfter(job, steps, states, k);
    StepIsTidy(job, states[k].data, steps[k]);
  }

  lemma {:induction false} CleanRunsAreTidy(job: Job, steps: seq<Step>, states: seq<State>, k: nat)
    requires ValidJob(job) && Run(job, steps, states) && AllClean(steps) && k < |states|
    ensures Tidy(job, states[k].data)
  {
    if k == 0 {
      StartIsTidy(job);
    } else {
      CleanRunsAreTidy(job, steps, states, k - 1);
      TidyAfter(job, steps, states, k - 1);
    }
  }

  lemma StartIsTidy(job: Job)
    requires ValidJob(job)
    ensures Tidy(job, Start(job).data)
  {
    forall x: nat ensures x < job.n ==> x % job.n == x {
      if x < job.n {
        SmallResidue(job.n, x);
      }
    }
  }

  // ---------- the drain ----------

  lemma {:induction false} NobodyBusy(job: Job, s: Data, t: nat)
    requires ValidJob(job) && BusyOk(job, s.busy) && Tidy(job, s) && AllEnded(s.sources)
    ensures forall slot :: slot in s.busy ==> slot.stage != t
  {
    forall slot | slot in s.busy ensures slot.stage != t {
      assert WorkOk(job, slot, s.busy[slot]);
      if slot.stage == t {
        assert SlotToken(job, AwaitedSet(job, s.sources, s.busy), s.acks, slot);
        if t > 1 {
          NobodyBusy(job, s, t - 1);
        }
      }
    }
  }

  lemma EndedMeansEmpty(job: Job, s: Data)
    requires ValidJob(job) && BusyOk(job, s.busy) && Tidy(job, s) && AllEnded(s.sources)
    ensures s.wire == multiset{} && s.acks == multiset{} && s.busy == map[]
  {
    forall slot ensures slot !in s.busy {
      NobodyBusy(job, s, slot.stage);
    }
    assert forall t: nat, x: nat :: (t, x) !in AwaitedSet(job, s.sources, s.busy);
  }

  lemma SentStaysOneStep(job: Job, s: State, step: Step, m: Marker)
    requires ValidJob(job) && Enabled(job, s, step) && Sent(s, m)
    ensures Sent(Apply(job, s, step), m)
  {}

  lemma HandledIsSent(job: Job, s: State, m: Marker)
    requires ValidJob(job) && Enabled(job, s, ReceiveMarker(m))
    ensures Sent(Apply(job, s, ReceiveMarker(m)), m)
  {}

  lemma {:induction false} SentStays(job: Job, steps: seq<Step>, states: seq<State>, m: Marker, i: nat, j: nat)
    requires ValidJob(job) && Run(job, steps, states) && i <= j < |states| && Sent(states[i], m)
    ensures Sent(states[j], m)
  {
    if i == j {
    } else {
      SentStays(job, steps, states, m, i, j - 1);
      assert Leads(job, steps, states, j - 1);
      SentStaysOneStep(job, states[j - 1], steps[j - 1], m);
    }
  }

  /** In a run without failures: once a task of stage 1 or later has broadcast its end-of-stream
      markers, no tuple and no acknowledgment is in flight or in hand anywhere, and every line has
      been processed at every stage it reaches. */
  lemma MarkerMeansDrained(job: Job, steps: seq<Step>, states: seq<State>, k: nat, m: Marker)
    requires ValidJob(job) && Run(job, steps, states) && AllClean(steps) && k < |states|
    requires m.stage >= 1 && Sent(states[k], m)
    ensures var s := states[k].data;
      && s.wire == multiset{} && s.acks == multiset{} && s.busy == map[]
      && forall t: nat, x: nat :: Reaches(job, t, x) ==> Home(job, t, x) in s.done
  {
    var s := states[k];
    CleanRunsAreTidy(job, steps, states, k);
    MarkerMeansRecorded(job, steps, states, k, m);
    RunsAreSafe(job, steps, states, k);
    RunsKeepEnds(job, steps, states, k);
    assert MarkerOk(job, s.data.sources, s.ends.spent, m);
    EndedMeansEmpty(job, s.data);
  }

  /** So the first marker handled at stage 2 or later comes after the last tuple: in a run without
      failures, no operator runs and no tuple is received after it. */
  lemma NothingAfterMarker(job: Job, steps: seq<Step>, states: seq<State>, i: nat, j: nat)
    requires ValidJob(job) && Run(job, steps, states) && AllClean(steps) && i < j < |steps|
    requires steps[i].ReceiveMarker? && steps[i].marker.stage >= 1
    ensures !steps[j].Process? && !steps[j].Receive?
  {
    var m := steps[i].marker;
    assert Leads(job, steps, states, i);
    HandledIsSent(job, states[i], m);
    SentStays(job, steps, states, m, i + 1, j);
    MarkerMeansDrained(job, steps, states, j, m);
    assert Leads(job, steps, states, j);
  }
}
