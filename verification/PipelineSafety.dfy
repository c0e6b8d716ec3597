/** What every step of the pipeline keeps, crashes and losses included. */
module PipelineSafety {
  import opened Arithmetic
  import opened Maybe
  import opened Pipeline

  // ---------- the path of a line ----------

  lemma {:induction false} FilteredStaysFiltered(job: Job, s: nat, t: nat, x: nat)
    requires 1 <= s <= t <= Depth(job) && Arriving(job, s, x) == None
    ensures Arriving(job, t, x) == None
    decreases t
  {
    if s == t {
    } else {
      FilteredStaysFiltered(job, s, t - 1, x);
    }
  }

  lemma {:induction false} NextArrival(job: Job, s: nat, x: nat)
    requires 1 <= s < Depth(job) && Arriving(job, s, x).Some?
    ensures Arriving(job, s + 1, x) == job.ops[s - 1](Arriving(job, s, x).value)
  {
    assert IsTuple(job, x);
  }

  // ---------- invariants, field by field ----------

  /** Payload `p` is what arrives of the line at this task. */
  predicate Fits(job: Job, slot: Slot, p: Payload)
    requires ValidJob(job)
  {
    1 <= slot.stage <= Depth(job) && Arriving(job, slot.stage, slot.id) == Some(p) && slot.task == Route(job, p)
  }

  function SlotOf(m: Message): Slot {
    Slot(m.stage, m.task, m.id)
  }

  ghost predicate WireOk(job: Job, wire: multiset<Message>)
    requires ValidJob(job)
  {
    forall m :: m in wire ==> Fits(job, SlotOf(m), m.payload)
  }

  ghost predicate WorkOk(job: Job, slot: Slot, w: Work)
    requires ValidJob(job)
  {
    && Fits(job, slot, w.payload)
    && (w.phase.Forwarded? ==>
          slot.stage < Depth(job) && Arriving(job, slot.stage + 1, slot.id) == Some(w.phase.out))
  }

  ghost predicate BusyOk(job: Job, busy: map<Slot, Work>)
    requires ValidJob(job)
  {
    forall slot :: slot in busy ==> WorkOk(job, slot, busy[slot])
  }

  predicate Counted(history: seq<Tally>, x: nat) {
    exists j :: 0 <= j < |history| && history[j].id == x
  }

  /** Line `x` has been counted, or is not to be counted. */
  predicate Settled(job: Job, history: seq<Tally>, x: nat) {
    CountedKey(job, x).None? || Counted(history, x)
  }

  predicate TallyOk(job: Job, t: Tally)
    requires ValidJob(job)
  {
    CountedKey(job, t.id) == Some(t.key) && t.task == job.hash(t.key) % job.n
  }

  /** Every execution of the counting operator was for a line to be counted, at the task its key
      belongs to, and no line was counted twice. */
  predicate HistoryOk(job: Job, history: seq<Tally>)
    requires ValidJob(job)
  {
    && (forall j :: 0 <= j < |history| ==> TallyOk(job, history[j]))
    && (forall i, j :: 0 <= i < j < |history| ==> history[i].id != history[j].id)
  }

  /** The handler is past the point where the tuple was processed. */
  predicate Late(w: Work) {
    w.phase.Processed? || w.phase.Queued? || w.phase.Recorded?
  }

  ghost predicate SlotsSettled(job: Job, slots: set<Slot>, history: seq<Tally>) {
    forall slot :: slot in slots ==> Settled(job, history, slot.id)
  }

  ghost predicate AcksSettled(job: Job, acks: multiset<Ack>, history: seq<Tally>) {
    forall a :: a in acks ==> Settled(job, history, a.id)
  }

  ghost predicate LateSettled(job: Job, busy: map<Slot, Work>, history: seq<Tally>) {
    forall slot :: slot in busy && Late(busy[slot]) ==> Settled(job, history, slot.id)
  }

  predicate Remembered(job: Job, t: Tally, busy: map<Slot, Work>, done: set<Slot>) {
    var slot := Slot(Depth(job), t.task, t.id);
    slot in done || (slot in busy && Late(busy[slot]))
  }

  /** The counting tasks remember what they counted. */
  ghost predicate AllRemembered(job: Job, history: seq<Tally>, busy: map<Slot, Work>, done: set<Slot>) {
    forall j :: 0 <= j < |history| ==> Remembered(job, history[j], busy, done)
  }

  /** Of the tuples in hand exactly the recorded ones are known as processed. */
  ghost predicate NoRework(busy: map<Slot, Work>, done: set<Slot>) {
    forall slot :: slot in busy ==> (busy[slot].phase.Recorded? <==> slot in done)
  }

  /** The counts of task `d` after the executions in `history`. */
  function TallyOf(history: seq<Tally>, d: nat): Counts {
    if history == [] then map[]
    else
      var last := history[|history| - 1];
      var before := TallyOf(history[..|history| - 1], d);
      if last.task == d then Increment(before, last.key) else before
  }

  ghost predicate CountsOk(job: Job, counts: seq<Counts>, history: seq<Tally>) {
    |counts| == job.n && forall d :: 0 <= d < job.n ==> counts[d] == TallyOf(history, d)
  }

  predicate Passed(job: Job, src: Source, x: nat) {
    match src
    case Reading(at) => x < at
    case Waiting(at) => x < at
    case Ended => x < |job.lines|
  }

  ghost predicate SourceOk(job: Job, i: nat, src: Source, history: seq<Tally>)
    requires ValidJob(job)
  {
    && (src.Reading? ==> src.at % job.n == i)
    && (src.Waiting? ==> src.at % job.n == i && IsTuple(job, src.at))
    && forall x: nat :: x % job.n == i && Passed(job, src, x) ==> Settled(job, history, x)
  }

  ghost predicate SourcesOk(job: Job, sources: seq<Source>, history: seq<Tally>)
    requires ValidJob(job)
  {
    |sources| == job.n && forall i :: 0 <= i < job.n ==> SourceOk(job, i, sources[i], history)
  }

  ghost predicate Safe(job: Job, s: Data)
    requires ValidJob(job)
  {
    && WireOk(job, s.wire) && BusyOk(job, s.busy)
    && HistoryOk(job, s.history)
    && AcksSettled(job, s.acks, s.history)
    && SlotsSettled(job, s.done, s.history) && SlotsSettled(job, s.queue, s.history)
    && SlotsSettled(job, s.log, s.history)
    && LateSettled(job, s.busy, s.history)
    && AllRemembered(job, s.history, s.busy, s.done) && NoRework(s.busy, s.done)
    && CountsOk(job, s.counts, s.history)
    && SourcesOk(job, s.sources, s.history)
  }

  // ---------- one step ----------

  lemma NextOfSource(job: Job, i: nat, at: nat, history: seq<Tally>)
    requires ValidJob(job) && i < job.n && at % job.n == i && Settled(job, history, at)
    requires forall x: nat :: x % job.n == i && x < at ==> Settled(job, history, x)
    ensures SourceOk(job, i, Reading(at + job.n), history)
  {
    assert (at + job.n) % job.n == i by { NextResidue(at, job.n); }
    forall x: nat | x % job.n == i && x < at + job.n ensures Settled(job, history, x) {
      if x > at {
        ResidueGap(at, x, job.n);
      }
    }
  }

  /** The four facts about the work in hand. */
  ghost predicate WorkFine(job: Job, busy: map<Slot, Work>, done: set<Slot>, history: seq<Tally>)
    requires ValidJob(job)
  {
    && BusyOk(job, busy) && LateSettled(job, busy, history)
    && AllRemembered(job, history, busy, done) && NoRework(busy, done)
  }

  lemma PutWork(job: Job, busy: map<Slot, Work>, done: set<Slot>, history: seq<Tally>, slot: Slot, w: Work)
    requires ValidJob(job) && WorkFine(job, busy, done, history)
    requires WorkOk(job, slot, w)
    requires Late(w) ==> Settled(job, history, slot.id)
    requires slot in busy && Late(busy[slot]) ==> Late(w)
    requires w.phase.Recorded? <==> slot in done
    ensures WorkFine(job, busy[slot := w], done, history)
  {
    assert BusyOk(job, busy[slot := w]);
    assert NoRework(busy[slot := w], done);
    assert LateSettled(job, busy[slot := w], history);
    forall j | 0 <= j < |history| ensures Remembered(job, history[j], busy[slot := w], done) {
      assert Remembered(job, history[j], busy, done);
    }
  }

  lemma PutKeeps(job: Job, s: Data, slot: Slot, w: Work)
    requires ValidJob(job) && Safe(job, s) && WorkOk(job, slot, w)
    requires Late(w) ==> Settled(job, s.history, slot.id)
    requires slot in s.busy && Late(s.busy[slot]) ==> Late(w)
    requires w.phase.Recorded? <==> slot in s.done
    ensures Safe(job, s.(busy := s.busy[slot := w]))
  {
    PutWork(job, s.busy, s.done, s.history, slot, w);
  }

  lemma WireGrows(job: Job, wire: multiset<Message>, m: Message)
    requires ValidJob(job) && WireOk(job, wire) && Fits(job, SlotOf(m), m.payload)
    ensures WireOk(job, wire + multiset{m})
  {
    forall o | o in wire + multiset{m} ensures Fits(job, SlotOf(o), o.payload) {
      assert o in wire || o == m;
    }
  }

  // ---------- sources ----------

  lemma SendKeeps(job: Job, s: Data, stage: nat, id: nat, p: Payload)
    requires ValidJob(job) && Safe(job, s) && Fits(job, Slot(stage, Route(job, p), id), p)
    ensures Safe(job, SendTo(job, s, stage, id, p))
  {
    WireGrows(job, s.wire, Message(stage, Route(job, p), id, p));
  }

  lemma SourceKeeps(job: Job, s: Data, i: nat, src: Source)
    requires ValidJob(job) && Safe(job, s) && i < job.n && SourceOk(job, i, src, s.history)
    ensures Safe(job, s.(sources := s.sources[i := src]))
  {}

  lemma SourceNextKeeps(job: Job, s: Data, i: nat)
    requires ValidJob(job) && Safe(job, s) && EnabledData(job, s, SourceNext(i))
    ensures Safe(job, NextSource(job, s, i))
  {
    var x := s.sources[i].at;
    assert SourceOk(job, i, s.sources[i], s.history);
    if x >= |job.lines| {
      SourceKeeps(job, s, i, Ended);
    } else if !IsTuple(job, x) {
      FilteredStaysFiltered(job, 1, Depth(job), x);
      NextOfSource(job, i, x, s.history);
      SourceKeeps(job, s, i, Reading(x + job.n));
    } else {
      SourceKeeps(job, s, i, Waiting(x));
      SendKeeps(job, s.(sources := s.sources[i := Waiting(x)]), 1, x, SourceTuple(job, x));
    }
  }

  lemma SourceResendKeeps(job: Job, s: Data, i: nat)
    requires ValidJob(job) && Safe(job, s) && EnabledData(job, s, SourceResend(i))
    ensures Safe(job, SendTo(job, s, 1, s.sources[i].at, SourceTuple(job, s.sources[i].at)))
  {
    assert SourceOk(job, i, s.sources[i], s.history);
    SendKeeps(job, s, 1, s.sources[i].at, SourceTuple(job, s.sources[i].at));
  }

  lemma LoseAckKeeps(job: Job, s: Data, a: Ack)
    requires ValidJob(job) && Safe(job, s)
    ensures Safe(job, s.(acks := s.acks - multiset{a}))
  {}

  lemma SourceAckKeeps(job: Job, s: Data, i: nat)
    requires ValidJob(job) && Safe(job, s) && EnabledData(job, s, SourceAck(i))
    ensures Safe(job, AckSource(job, s, i))
  {
    var x := s.sources[i].at;
    assert SourceOk(job, i, s.sources[i], s.history);
    assert Settled(job, s.history, Ack(1, x).id);
    NextOfSource(job, i, x, s.history);
    SourceKeeps(job, s, i, Reading(x + job.n));
    LoseAckKeeps(job, s.(sources := s.sources[i := Reading(x + job.n)]), Ack(1, x));
  }

  // ---------- receiving ----------

  lemma LoseMessageKeeps(job: Job, s: Data, m: Message)
    requires ValidJob(job) && Safe(job, s)
    ensures Safe(job, s.(wire := s.wire - multiset{m}))
  {}

  lemma AddAckKeeps(job: Job, s: Data, a: Ack)
    requires ValidJob(job) && Safe(job, s) && Settled(job, s.history, a.id)
    ensures Safe(job, s.(acks := s.acks + multiset{a}))
  {}

  lemma ReceiveKeeps(job: Job, s: Data, m: Message)
    requires ValidJob(job) && Safe(job, s) && m in s.wire && SlotOf(m) !in s.busy
    ensures Safe(job, TakeMessage(s, m))
  {
    assert Fits(job, SlotOf(m), m.payload);
    var s1 := s.(wire := s.wire - multiset{m});
    LoseMessageKeeps(job, s, m);
    if SlotOf(m) in s.done {
      AddAckKeeps(job, s1, Ack(m.stage, m.id));
    } else {
      PutKeeps(job, s1, SlotOf(m), Work(m.payload, Checked));
    }
  }

  // ---------- counting ----------

  lemma SameTask(job: Job, t: Tally, slot: Slot, p: Payload)
    requires ValidJob(job) && TallyOk(job, t) && Fits(job, slot, p) && slot.stage == Depth(job)
    ensures t.id == slot.id ==> t.task == slot.task
  {}

  /** A tuple past the duplicate check of a counting task has not been counted. */
  lemma NotYetCounted(job: Job, s: Data, slot: Slot)
    requires ValidJob(job) && Safe(job, s) && slot in s.busy && s.busy[slot].phase == Checked && slot.stage == Depth(job)
    ensures !Counted(s.history, slot.id)
    ensures TallyOk(job, Tally(slot.id, slot.task, s.busy[slot].payload.key))
  {
    assert WorkOk(job, slot, s.busy[slot]);
    forall j | 0 <= j < |s.history| ensures s.history[j].id != slot.id {
      assert TallyOk(job, s.history[j]) && Remembered(job, s.history[j], s.busy, s.done);
      SameTask(job, s.history[j], slot, s.busy[slot].payload);
    }
  }

  lemma SettledGrows(job: Job, history: seq<Tally>, t: Tally, x: nat)
    ensures Settled(job, history, x) ==> Settled(job, history + [t], x)
    ensures Settled(job, history + [t], t.id)
  {
    if Counted(history, x) {
      var j :| 0 <= j < |history| && history[j].id == x;
      assert (history + [t])[j].id == x;
    }
    assert (history + [t])[|history|].id == t.id;
  }

  lemma HistoryGrows(job: Job, history: seq<Tally>, t: Tally)
    requires ValidJob(job) && HistoryOk(job, history) && TallyOk(job, t) && !Counted(history, t.id)
    ensures HistoryOk(job, history + [t])
  {}

  lemma SourcesGrow(job: Job, sources: seq<Source>, history: seq<Tally>, t: Tally)
    requires ValidJob(job) && SourcesOk(job, sources, history)
    ensures SourcesOk(job, sources, history + [t])
  {
    forall i | 0 <= i < job.n ensures SourceOk(job, i, sources[i], history + [t]) {
      assert SourceOk(job, i, sources[i], history);
      forall x: nat | x % job.n == i && Passed(job, sources[i], x) ensures Settled(job, history + [t], x) {
        SettledGrows(job, history, t, x);
      }
    }
  }

  lemma CountsGrow(job: Job, counts: seq<Counts>, history: seq<Tally>, t: Tally)
    requires CountsOk(job, counts, history) && t.task < |counts|
    ensures CountsOk(job, counts[t.task := Increment(counts[t.task], t.key)], history + [t])
  {
    assert (history + [t])[..|history|] == history;
  }

  lemma WorkGrows(job: Job, busy: map<Slot, Work>, done: set<Slot>, history: seq<Tally>, slot: Slot, t: Tally)
    requires ValidJob(job) && WorkFine(job, busy, done, history)
    requires slot in busy && busy[slot].phase == Checked
    requires slot == Slot(Depth(job), t.task, t.id)
    ensures WorkFine(job, busy[slot := busy[slot].(phase := Processed)], done, history + [t])
  {
    var h := history + [t];
    var busy' := busy[slot := busy[slot].(phase := Processed)];
    assert WorkOk(job, slot, busy[slot]);
    assert BusyOk(job, busy') && NoRework(busy', done);
    forall o | o in busy' && Late(busy'[o]) ensures Settled(job, h, o.id) {
      SettledGrows(job, history, t, o.id);
    }
    forall j | 0 <= j < |h| ensures Remembered(job, h[j], busy', done) {
      if j < |history| {
        assert Remembered(job, history[j], busy, done);
      }
    }
  }

  lemma SlotsGrow(job: Job, slots: set<Slot>, history: seq<Tally>, t: Tally)
    requires SlotsSettled(job, slots, history)
    ensures SlotsSettled(job, slots, history + [t])
  {
    forall slot | slot in slots ensures Settled(job, history + [t], slot.id) {
      SettledGrows(job, history, t, slot.id);
    }
  }

  lemma AcksGrow(job: Job, acks: multiset<Ack>, history: seq<Tally>, t: Tally)
    requires AcksSettled(job, acks, history)
    ensures AcksSettled(job, acks, history + [t])
  {
    forall a | a in acks ensures Settled(job, history + [t], a.id) {
      SettledGrows(job, history, t, a.id);
    }
  }

  lemma CountKeeps(job: Job, s: Data, slot: Slot)
    requires ValidJob(job) && Safe(job, s) && slot.task < |s.counts|
    requires slot in s.busy && s.busy[slot].phase == Checked && slot.stage == Depth(job)
    ensures Safe(job, CountSlot(s, slot))
  {
    var t := Tally(slot.id, slot.task, s.busy[slot].payload.key);
    NotYetCounted(job, s, slot);
    HistoryGrows(job, s.history, t);
    SourcesGrow(job, s.sources, s.history, t);
    CountsGrow(job, s.counts, s.history, t);
    WorkGrows(job, s.busy, s.done, s.history, slot, t);
    SlotsGrow(job, s.done, s.history, t);
    SlotsGrow(job, s.queue, s.history, t);
    SlotsGrow(job, s.log, s.history, t);
    AcksGrow(job, s.acks, s.history, t);
  }

  // ---------- the other stages ----------

  lemma DropSettles(job: Job, slot: Slot, p: Payload, history: seq<Tally>)
    requires ValidJob(job) && Fits(job, slot, p) && slot.stage < Depth(job)
    requires job.ops[slot.stage - 1](p) == None
    ensures Settled(job, history, slot.id)
  {
    NextArrival(job, slot.stage, slot.id);
    FilteredStaysFiltered(job, slot.stage + 1, Depth(job), slot.id);
  }

  lemma DropKeeps(job: Job, s: Data, slot: Slot)
    requires ValidJob(job) && Safe(job, s) && slot in s.busy && s.busy[slot].phase == Checked
    requires 1 <= slot.stage < Depth(job) && job.ops[slot.stage - 1](s.busy[slot].payload) == None
    ensures Safe(job, SetPhase(s, slot, Processed))
  {
    assert WorkOk(job, slot, s.busy[slot]);
    DropSettles(job, slot, s.busy[slot].payload, s.history);
    PutKeeps(job, s, slot, s.busy[slot].(phase := Processed));
  }

  lemma ForwardFits(job: Job, slot: Slot, p: Payload, q: Payload)
    requires ValidJob(job) && Fits(job, slot, p) && slot.stage < Depth(job)
    requires job.ops[slot.stage - 1](p) == Some(q)
    ensures WorkOk(job, slot, Work(p, Forwarded(q)))
    ensures Fits(job, Slot(slot.stage + 1, Route(job, q), slot.id), q)
  {
    NextArrival(job, slot.stage, slot.id);
  }

  lemma ForwardWork(job: Job, s: Data, slot: Slot, q: Payload)
    requires ValidJob(job) && slot in s.busy && s.busy[slot].phase == Checked
    requires WorkFine(job, s.busy, s.done, s.history) && WireOk(job, s.wire)
    requires slot.stage < Depth(job) && job.ops[slot.stage - 1](s.busy[slot].payload) == Some(q)
    ensures WorkFine(job, ForwardSlot(job, s, slot, q).busy, s.done, s.history)
    ensures WireOk(job, ForwardSlot(job, s, slot, q).wire)
  {
    assert WorkOk(job, slot, s.busy[slot]);
    ForwardFits(job, slot, s.busy[slot].payload, q);
    PutWork(job, s.busy, s.done, s.history, slot, s.busy[slot].(phase := Forwarded(q)));
    WireGrows(job, s.wire, Message(slot.stage + 1, Route(job, q), slot.id, q));
  }

  lemma ForwardKeeps(job: Job, s: Data, slot: Slot, q: Payload)
    requires ValidJob(job) && Safe(job, s) && slot in s.busy && s.busy[slot].phase == Checked
    requires 1 <= slot.stage < Depth(job) && job.ops[slot.stage - 1](s.busy[slot].payload) == Some(q)
    ensures Safe(job, ForwardSlot(job, s, slot, q))
  {
    ForwardWork(job, s, slot, q);
  }

  lemma TaskResendKeeps(job: Job, s: Data, slot: Slot)
    requires ValidJob(job) && Safe(job, s) && slot in s.busy && s.busy[slot].phase.Forwarded?
    ensures Safe(job, SendTo(job, s, slot.stage + 1, slot.id, s.busy[slot].phase.out))
  {
    assert WorkOk(job, slot, s.busy[slot]);
    SendKeeps(job, s, slot.stage + 1, slot.id, s.busy[slot].phase.out);
  }

  lemma AdvanceKeeps(job: Job, s: Data, slot: Slot, phase: Phase)
    requires ValidJob(job) && Safe(job, s) && slot in s.busy && Settled(job, s.history, slot.id)
    requires (phase.Processed? && s.busy[slot].phase.Forwarded?) || (phase.Queued? && s.busy[slot].phase.Processed?)
    ensures Safe(job, SetPhase(s, slot, phase))
  {
    assert WorkOk(job, slot, s.busy[slot]);
    PutKeeps(job, s, slot, s.busy[slot].(phase := phase));
  }

  lemma TaskAckKeeps(job: Job, s: Data, slot: Slot)
    requires ValidJob(job) && Safe(job, s) && slot in s.busy && s.busy[slot].phase.Forwarded?
    requires Ack(slot.stage + 1, slot.id) in s.acks
    ensures Safe(job, AckTask(s, slot))
  {
    assert Settled(job, s.history, Ack(slot.stage + 1, slot.id).id);
    AdvanceKeeps(job, s, slot, Processed);
    LoseAckKeeps(job, SetPhase(s, slot, Processed), Ack(slot.stage + 1, slot.id));
  }

  lemma QueueKeeps(job: Job, s: Data, slot: Slot)
    requires ValidJob(job) && Safe(job, s) && Settled(job, s.history, slot.id)
    ensures Safe(job, s.(queue := s.queue + {slot}))
  {}

  lemma EnqueueKeeps(job: Job, s: Data, slot: Slot)
    requires ValidJob(job) && Safe(job, s) && slot in s.busy && s.busy[slot].phase == Processed
    ensures Safe(job, EnqueueSlot(s, slot))
  {
    assert Late(s.busy[slot]);
    AdvanceKeeps(job, s, slot, Queued);
    QueueKeeps(job, SetPhase(s, slot, Queued), slot);
  }

  lemma RecordWork(job: Job, busy: map<Slot, Work>, done: set<Slot>, history: seq<Tally>, slot: Slot)
    requires ValidJob(job) && WorkFine(job, busy, done, history) && slot in busy && Late(busy[slot])
    ensures WorkFine(job, busy[slot := busy[slot].(phase := Recorded)], done + {slot}, history)
  {
    var busy' := busy[slot := busy[slot].(phase := Recorded)];
    assert WorkOk(job, slot, busy[slot]);
    assert BusyOk(job, busy') && NoRework(busy', done + {slot});
    forall j | 0 <= j < |history| ensures Remembered(job, history[j], busy', done + {slot}) {
      assert Remembered(job, history[j], busy, done);
    }
  }

  lemma RecordKeeps(job: Job, s: Data, slot: Slot)
    requires ValidJob(job) && Safe(job, s) && slot in s.busy && s.busy[slot].phase.Queued?
    ensures Safe(job, RecordSlot(s, slot))
  {
    assert Late(s.busy[slot]);
    RecordWork(job, s.busy, s.done, s.history, slot);
  }

  lemma FinishWork(job: Job, busy: map<Slot, Work>, done: set<Slot>, history: seq<Tally>, slot: Slot)
    requires ValidJob(job) && WorkFine(job, busy, done, history) && slot in busy && busy[slot].phase.Recorded?
    ensures WorkFine(job, busy - {slot}, done, history)
  {
    forall j | 0 <= j < |history| ensures Remembered(job, history[j], busy - {slot}, done) {
      assert Remembered(job, history[j], busy, done);
    }
  }

  lemma FinishKeeps(job: Job, s: Data, slot: Slot)
    requires ValidJob(job) && Safe(job, s) && slot in s.busy && s.busy[slot].phase.Recorded?
    ensures Safe(job, FinishSlot(s, slot))
  {
    assert Late(s.busy[slot]);
    AddAckKeeps(job, s, Ack(slot.stage, slot.id));
    FinishWork(job, s.busy, s.done, s.history, slot);
  }

  lemma LogKeeps(job: Job, s: Data, slot: Slot)
    requires ValidJob(job) && Safe(job, s) && slot in s.queue
    ensures Safe(job, LogSlot(s, slot))
  {}

  lemma CrashKeeps(job: Job, s: Data, at: Location, recovered: set<Slot>)
    requires ValidJob(job) && Safe(job, s) && EnabledData(job, s, Crash(at, recovered))
    ensures Safe(job, CrashTask(s, at, recovered))
  {
    var s' := CrashTask(s, at, recovered);
    assert BusyOk(job, s'.busy);
    assert LateSettled(job, s'.busy, s.history);
    assert NoRework(s'.busy, s'.done);
    forall j | 0 <= j < |s.history| ensures Remembered(job, s.history[j], s'.busy, s'.done) {
      assert Remembered(job, s.history[j], s.busy, s.done);
    }
  }

  // ---------- every run ----------

  lemma SourceStepKeeps(job: Job, s: Data, step: Step)
    requires ValidJob(job) && Safe(job, s) && EnabledData(job, s, step)
    requires step.SourceNext? || step.SourceResend? || step.SourceAck?
    ensures Safe(job, ApplyData(job, s, step))
  {
    match step
    case SourceNext(i) => SourceNextKeeps(job, s, i);
    case SourceResend(i) => SourceResendKeeps(job, s, i);
    case SourceAck(i) => SourceAckKeeps(job, s, i);
  }

  lemma ProcessStepKeeps(job: Job, s: Data, slot: Slot)
    requires ValidJob(job) && Safe(job, s) && EnabledData(job, s, Process(slot))
    ensures Safe(job, ApplyData(job, s, Process(slot)))
  {
    if slot.stage == Depth(job) {
      CountKeeps(job, s, slot);
    } else {
      var r := job.ops[slot.stage - 1](s.busy[slot].payload);
      if r.None? {
        DropKeeps(job, s, slot);
      } else {
        ForwardKeeps(job, s, slot, r.value);
      }
    }
  }

  lemma MessageStepKeeps(job: Job, s: Data, step: Step)
    requires ValidJob(job) && Safe(job, s) && EnabledData(job, s, step)
    requires step.Receive? || step.TaskResend?
    ensures Safe(job, ApplyData(job, s, step))
  {
    match step
    case Receive(m) => ReceiveKeeps(job, s, m);
    case TaskResend(slot) => TaskResendKeeps(job, s, slot);
  }

  lemma RecordStepKeeps(job: Job, s: Data, step: Step)
    requires ValidJob(job) && Safe(job, s) && EnabledData(job, s, step)
    requires step.Enqueue? || step.Record? || step.Acknowledge? || step.WriteLog?
    ensures Safe(job, ApplyData(job, s, step))
  {
    match step
    case Enqueue(slot) => EnqueueKeeps(job, s, slot);
    case Record(slot) => RecordKeeps(job, s, slot);
    case Acknowledge(slot) => FinishKeeps(job, s, slot);
    case WriteLog(slot) => LogKeeps(job, s, slot);
  }

  lemma FailureStepKeeps(job: Job, s: Data, step: Step)
    requires ValidJob(job) && Safe(job, s) && EnabledData(job, s, step)
    requires step.Crash? || step.LoseMessage? || step.LoseAck?
    ensures Safe(job, ApplyData(job, s, step))
  {
    match step
    case Crash(at, recovered) => CrashKeeps(job, s, at, recovered);
    case LoseMessage(m) => LoseMessageKeeps(job, s, m);
    case LoseAck(a) => LoseAckKeeps(job, s, a);
  }

  lemma AckStepKeeps(job: Job, s: Data, slot: Slot)
    requires ValidJob(job) && Safe(job, s) && EnabledData(job, s, TaskAck(slot))
    ensures Safe(job, ApplyData(job, s, TaskAck(slot)))
  {
    TaskAckKeeps(job, s, slot);
  }

  lemma {:induction false} StepKeepsSafe(job: Job, s: Data, step: Step)
    requires ValidJob(job) && Safe(job, s) && EnabledData(job, s, step)
    ensures Safe(job, ApplyData(job, s, step))
  {
    if step.SourceNext? || step.SourceResend? || step.SourceAck? {
      SourceStepKeeps(job, s, step);
    } else if step.Process? {
      ProcessStepKeeps(job, s, step.slot);
    } else if step.Receive? || step.TaskResend? {
      MessageStepKeeps(job, s, step);
    } else if step.TaskAck? {
      AckStepKeeps(job, s, step.slot);
    } else if step.Enqueue? || step.Record? || step.Acknowledge? || step.WriteLog? {
      RecordStepKeeps(job, s, step);
    } else if step.Crash? || step.LoseMessage? || step.LoseAck? {
      FailureStepKeeps(job, s, step);
    }
  }

  lemma StartIsSafe(job: Job)
    requires ValidJob(job)
    ensures Safe(job, Start(job).data)
  {
    forall i | 0 <= i < job.n ensures SourceOk(job, i, Reading(i), []) {
      forall x: nat ensures x < job.n ==> x % job.n == x {
        if x < job.n {
          SmallResidue(job.n, x);
        }
      }
    }
  }

  lemma {:induction false} RunsAreSafe(job: Job, steps: seq<Step>, states: seq<State>, k: nat)
    requires ValidJob(job) && Run(job, steps, states) && k < |states|
    ensures Safe(job, states[k].data)
  {
    if k == 0 {
      StartIsSafe(job);
    } else {
      RunsAreSafe(job, steps, states, k - 1);
      assert Leads(job, steps, states, k - 1);
      StepKeepsSafe(job, states[k - 1].data, steps[k - 1]);
    }
  }
}
