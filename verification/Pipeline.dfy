/** The stream pipeline as a state machine: sources, stateless stages, a counting last stage.

    The stages 1 to D-1 apply stateless operators, stage D counts by key; every stage has `n`
    tasks. A step is one atomic action of one task. Messages may be delayed, reordered, lost and
    resent; tasks of the stateless stages may crash and restart. Line numbers stand for tuple ids
    (see module TupleIds). */
module Pipeline {
  import opened Maybe
  import opened Text

  /** What operators see of a tuple; they keep its id. */
  datatype Payload = Payload(key: string, value: string)

  type Operator = Payload -> Option<Payload>

  datatype Job = Job(file: string, lines: seq<string>, n: nat, ops: seq<Operator>, hash: string -> nat)

  predicate ValidJob(job: Job) {
    job.n > 0
  }

  // ---------- the path of a line ----------

  function Depth(job: Job): nat {
    |job.ops| + 1
  }

  /** Lines that are empty after trimming are skipped by the sources. */
  predicate IsTuple(job: Job, x: nat) {
    x < |job.lines| && TrimSpace(job.lines[x]) != ""
  }

  function SourceTuple(job: Job, x: nat): Payload
    requires x < |job.lines|
  {
    Payload(job.file + ":" + Decimal(x + 1), TrimSpace(job.lines[x]))
  }

  /** What of line `x` reaches stage `s`, if it is not filtered out before. */
  function Arriving(job: Job, s: nat, x: nat): Option<Payload>
    requires 1 <= s <= Depth(job)
  {
    if !IsTuple(job, x) then None
    else if s == 1 then Some(SourceTuple(job, x))
    else
      match Arriving(job, s - 1, x)
      case None => None
      case Some(p) => job.ops[s - 2](p)
  }

  /** The task of the next stage a tuple goes to. */
  function Route(job: Job, p: Payload): nat
    requires ValidJob(job)
  {
    job.hash(p.key) % job.n
  }

  // ---------- states ----------

  /** A source reads its lines in order, waits for the acknowledgment of the one it sent, and
      ends after sending its end-of-stream markers. */
  datatype Source = Reading(at: nat) | Waiting(at: nat) | Ended

  /** A tuple on its way to a task of stage `stage`. */
  datatype Message = Message(stage: nat, task: nat, id: nat, payload: Payload)

  /** The acknowledgment of tuple `id` by stage `stage`. */
  datatype Ack = Ack(stage: nat, id: nat)

  /** A tuple at a task. */
  datatype Slot = Slot(stage: nat, task: nat, id: nat)

  /** How far a task's handler is: past the duplicate check; waiting for downstream; processed;
      queued for the state log; recorded as processed. */
  datatype Phase = Checked | Forwarded(out: Payload) | Processed | Queued | Recorded

  datatype Work = Work(payload: Payload, phase: Phase)

  datatype Location = Location(stage: nat, task: nat)

  /** An end-of-stream marker from a task of stage `stage` to one of stage `stage + 1`. */
  datatype Marker = Marker(stage: nat, from: nat, to: nat)

  /** One execution of the counting operator. */
  datatype Tally = Tally(id: nat, task: nat, key: string)

  type Counts = map<string, nat>

  /** The tuples: where they are, who knows them, what was counted. */
  datatype Data = Data(
    sources: seq<Source>,
    wire: multiset<Message>, acks: multiset<Ack>,
    busy: map<Slot, Work>, done: set<Slot>, queue: set<Slot>, log: set<Slot>,
    counts: seq<Counts>, history: seq<Tally>)

  /** The end-of-stream markers: on their way, handled, and what the tasks made of them. */
  datatype Ends = Ends(
    markers: set<Marker>, spent: set<Marker>,
    seen: set<Marker>, eofCount: map<Location, nat>, broadcast: set<Location>,
    flushed: map<nat, Counts>)

  datatype State = State(data: Data, ends: Ends)

  datatype Step =
    | SourceNext(i: nat)          // skip a blank line, send the next tuple, or end
    | SourceResend(i: nat)
    | SourceAck(i: nat)
    | Receive(m: Message)         // duplicate check
    | Process(slot: Slot)
    | TaskResend(slot: Slot)
    | TaskAck(slot: Slot)
    | Enqueue(slot: Slot)         // hand the id to the state log
    | Record(slot: Slot)          // mark the id as processed
    | Acknowledge(slot: Slot)
    | WriteLog(slot: Slot)
    | ReceiveMarker(marker: Marker)
    | Crash(at: Location, recovered: set<Slot>)
    | LoseMessage(m: Message)
    | LoseAck(a: Ack)

  /** No failure, no timeout, nothing lost. */
  predicate IsClean(step: Step) {
    !step.SourceResend? && !step.TaskResend? && !step.Crash? && !step.LoseMessage? && !step.LoseAck?
  }

  function Start(job: Job): State {
    State(
      Data(seq(job.n, i requires 0 <= i => Reading(i)), multiset{}, multiset{}, map[], {}, {}, {},
           seq(job.n, i => map[]), []),
      Ends({}, {}, {}, map[], {}, map[]))
  }

  function CountOf(m: map<Location, nat>, at: Location): nat {
    if at in m then m[at] else 0
  }

  function Increment(c: Counts, key: string): Counts {
    c[key := (if key in c then c[key] else 0) + 1]
  }

  function MarkersFrom(job: Job, at: Location): set<Marker> {
    set d: nat | d < job.n :: Marker(at.stage, at.task, d)
  }

  predicate SlotAt(slot: Slot, at: Location) {
    slot.stage == at.stage && slot.task == at.task
  }

  // ---------- when a step is possible ----------

  predicate EnabledData(job: Job, s: Data, step: Step) {
    match step
    case SourceNext(i) => i < |s.sources| && s.sources[i].Reading?
    case SourceResend(i) => i < |s.sources| && s.sources[i].Waiting? && s.sources[i].at < |job.lines|
    case SourceAck(i) => i < |s.sources| && s.sources[i].Waiting? && Ack(1, s.sources[i].at) in s.acks
    case Receive(m) =>
      // the same id is never handled twice at once by one task
      m in s.wire && Slot(m.stage, m.task, m.id) !in s.busy
    case Process(slot) =>
      slot in s.busy && s.busy[slot].phase == Checked && 1 <= slot.stage <= Depth(job) && slot.task < |s.counts|
    case TaskResend(slot) => slot in s.busy && s.busy[slot].phase.Forwarded?
    case TaskAck(slot) => slot in s.busy && s.busy[slot].phase.Forwarded? && Ack(slot.stage + 1, slot.id) in s.acks
    case Enqueue(slot) => slot in s.busy && s.busy[slot].phase == Processed
    case Record(slot) => slot in s.busy && s.busy[slot].phase == Queued
    case Acknowledge(slot) => slot in s.busy && s.busy[slot].phase == Recorded
    case WriteLog(slot) => slot in s.queue
    case ReceiveMarker(m) => m.to < |s.counts|
    case Crash(at, recovered) =>
      // only the stateless stages; any part of the log may be read back
      1 <= at.stage < Depth(job) && recovered <= s.log
      && forall slot :: slot in recovered ==> SlotAt(slot, at)
    case LoseMessage(m) => m in s.wire
    case LoseAck(a) => a in s.acks
  }

  predicate Enabled(job: Job, s: State, step: Step) {
    EnabledData(job, s.data, step)
    && (step.ReceiveMarker? ==> step.marker in s.ends.markers && step.marker.stage < Depth(job))
  }

  // ---------- what a step does to the tuples ----------

  function SendTo(job: Job, s: Data, stage: nat, id: nat, p: Payload): Data
    requires ValidJob(job)
  {
    s.(wire := s.wire + multiset{Message(stage, Route(job, p), id, p)})
  }

  function SetPhase(s: Data, slot: Slot, phase: Phase): Data
    requires slot in s.busy
  {
    s.(busy := s.busy[slot := s.busy[slot].(phase := phase)])
  }

  predicate AtEnd(job: Job, s: Data, i: nat) {
    i < |s.sources| && s.sources[i].Reading? && s.sources[i].at >= |job.lines|
  }

  /** Skip a blank line, send the next tuple, or end. */
  function NextSource(job: Job, s: Data, i: nat): Data
    requires ValidJob(job) && i < |s.sources| && s.sources[i].Reading?
  {
    var x := s.sources[i].at;
    if x >= |job.lines| then
      s.(sources := s.sources[i := Ended])
    else if !IsTuple(job, x) then
      s.(sources := s.sources[i := Reading(x + job.n)])
    else
      SendTo(job, s.(sources := s.sources[i := Waiting(x)]), 1, x, SourceTuple(job, x))
  }

  function AckSource(job: Job, s: Data, i: nat): Data
    requires i < |s.sources| && s.sources[i].Waiting?
  {
    var x := s.sources[i].at;
    s.(sources := s.sources[i := Reading(x + job.n)], acks := s.acks - multiset{Ack(1, x)})
  }

  /** A known id is acknowledged at once; another is taken in hand. */
  function TakeMessage(s: Data, m: Message): Data {
    var slot := Slot(m.stage, m.task, m.id);
    if slot in s.done then
      s.(wire := s.wire - multiset{m}, acks := s.acks + multiset{Ack(m.stage, m.id)})
    else
      s.(wire := s.wire - multiset{m}, busy := s.busy[slot := Work(m.payload, Checked)])
  }

  function CountSlot(s: Data, slot: Slot): Data
    requires slot in s.busy && slot.task < |s.counts|
  {
    var key := s.busy[slot].payload.key;
    SetPhase(s, slot, Processed).(
      counts := s.counts[slot.task := Increment(s.counts[slot.task], key)],
      history := s.history + [Tally(slot.id, slot.task, key)])
  }

  function ForwardSlot(job: Job, s: Data, slot: Slot, q: Payload): Data
    requires ValidJob(job) && slot in s.busy
  {
    SendTo(job, SetPhase(s, slot, Forwarded(q)), slot.stage + 1, slot.id, q)
  }

  function ProcessSlot(job: Job, s: Data, slot: Slot): Data
    requires ValidJob(job) && slot in s.busy && 1 <= slot.stage <= Depth(job) && slot.task < |s.counts|
  {
    if slot.stage == Depth(job) then CountSlot(s, slot)
    else
      match job.ops[slot.stage - 1](s.busy[slot].payload)
      case None => SetPhase(s, slot, Processed)
      case Some(q) => ForwardSlot(job, s, slot, q)
  }

  function AckTask(s: Data, slot: Slot): Data
    requires slot in s.busy
  {
    SetPhase(s, slot, Processed).(acks := s.acks - multiset{Ack(slot.stage + 1, slot.id)})
  }

  function EnqueueSlot(s: Data, slot: Slot): Data
    requires slot in s.busy
  {
    SetPhase(s, slot, Queued).(queue := s.queue + {slot})
  }

  function RecordSlot(s: Data, slot: Slot): Data
    requires slot in s.busy
  {
    SetPhase(s, slot, Recorded).(done := s.done + {slot})
  }

  function FinishSlot(s: Data, slot: Slot): Data {
    s.(busy := s.busy - {slot}, acks := s.acks + multiset{Ack(slot.stage, slot.id)})
  }

  function LogSlot(s: Data, slot: Slot): Data {
    s.(queue := s.queue - {slot}, log := s.log + {slot})
  }

  /** A crash loses everything in memory; the restarted task knows what it reads back. */
  function CrashTask(s: Data, at: Location, recovered: set<Slot>): Data {
    s.(busy := (map slot | slot in s.busy && !SlotAt(slot, at) :: s.busy[slot]),
       done := (set slot | slot in s.done && !SlotAt(slot, at)) + recovered,
       queue := (set slot | slot in s.queue && !SlotAt(slot, at)))
  }

  function ApplyData(job: Job, s: Data, step: Step): Data
    requires ValidJob(job) && EnabledData(job, s, step)
  {
    match step
    case SourceNext(i) => NextSource(job, s, i)
    case SourceResend(i) => SendTo(job, s, 1, s.sources[i].at, SourceTuple(job, s.sources[i].at))
    case SourceAck(i) => AckSource(job, s, i)
    case Receive(m) => TakeMessage(s, m)
    case Process(slot) => ProcessSlot(job, s, slot)
    case TaskResend(slot) => SendTo(job, s, slot.stage + 1, slot.id, s.busy[slot].phase.out)
    case TaskAck(slot) => AckTask(s, slot)
    case Enqueue(slot) => EnqueueSlot(s, slot)
    case Record(slot) => RecordSlot(s, slot)
    case Acknowledge(slot) => FinishSlot(s, slot)
    case WriteLog(slot) => LogSlot(s, slot)
    case ReceiveMarker(m) => s
    case Crash(at, recovered) => CrashTask(s, at, recovered)
    case LoseMessage(m) => s.(wire := s.wire - multiset{m})
    case LoseAck(a) => s.(acks := s.acks - multiset{a})
  }

  // ---------- what a step does to the markers ----------

  function MarkerCounted(e: Ends, m: Marker): Ends {
    var at := Location(m.stage + 1, m.to);
    e.(markers := e.markers - {m}, spent := e.spent + {m}, seen := e.seen + {m},
       eofCount := e.eofCount[at := CountOf(e.eofCount, at) + 1])
  }

  function Broadcast(job: Job, e: Ends, at: Location): Ends {
    e.(broadcast := e.broadcast + {at}, markers := e.markers + MarkersFrom(job, at))
  }

  /** Every marker is counted; the last stage flushes its counts at the first one, a middle stage
      broadcasts once it has counted `n`. */
  function TakeMarker(job: Job, e: Ends, counts: seq<Counts>, m: Marker): Ends
    requires m.to < |counts|
  {
    var at := Location(m.stage + 1, m.to);
    var e1 := MarkerCounted(e, m);
    if at.stage == Depth(job) then
      if m.to in e.flushed then e1 else e1.(flushed := e.flushed[m.to := counts[m.to]])
    else if CountOf(e1.eofCount, at) >= job.n && at !in e.broadcast then Broadcast(job, e1, at)
    else e1
  }

  function CrashEnds(e: Ends, at: Location): Ends {
    e.(seen := (set m | m in e.seen && !(m.stage + 1 == at.stage && m.to == at.task)),
       eofCount := e.eofCount[at := 0],
       broadcast := e.broadcast - {at})
  }

  function ApplyEnds(job: Job, s: State, step: Step): Ends
    requires Enabled(job, s, step)
  {
    match step
    case SourceNext(i) =>
      if AtEnd(job, s.data, i)
      then s.ends.(markers := s.ends.markers + MarkersFrom(job, Location(0, i)))
      else s.ends
    case ReceiveMarker(m) => TakeMarker(job, s.ends, s.data.counts, m)
    case Crash(at, recovered) => CrashEnds(s.ends, at)
    case _ => s.ends
  }

  function Apply(job: Job, s: State, step: Step): State
    requires ValidJob(job) && Enabled(job, s, step)
  {
    State(ApplyData(job, s.data, step), ApplyEnds(job, s, step))
  }

  /** Step `k` is possible in the state before it and leads to the state after it. */
  ghost predicate Leads(job: Job, steps: seq<Step>, states: seq<State>, k: nat)
    requires ValidJob(job) && k < |steps| && |states| == |steps| + 1
  {
    Enabled(job, states[k], steps[k]) && states[k + 1] == Apply(job, states[k], steps[k])
  }

  /** `states` are the states a run of `steps` goes through: `states[k]` is the one before step `k`,
      the last one is where the run has got to. */
  ghost predicate Run(job: Job, steps: seq<Step>, states: seq<State>)
    requires ValidJob(job)
  {
    && |states| == |steps| + 1 && states[0] == Start(job)
    && forall k: nat {:trigger Leads(job, steps, states, k)} :: k < |steps| ==> Leads(job, steps, states, k)
  }

  // ---------- what the job should compute ----------

  /** The key under which line `x` is to be counted, if it passes all operators. */
  function CountedKey(job: Job, x: nat): Option<string> {
    match Arriving(job, Depth(job), x)
    case None => None
    case Some(p) => Some(p.key)
  }

  /** What the operators make of a tuple, one after the other. */
  function Through(ops: seq<Operator>, p: Payload): Option<Payload> {
    if ops == [] then Some(p)
    else
      match ops[0](p)
      case None => None
      case Some(q) => Through(ops[1..], q)
  }

  lemma {:induction false} ThroughAll(ops: seq<Operator>, last: Operator, p: Payload)
    ensures Through(ops + [last], p) == match Through(ops, p) case None => None case Some(q) => last(q)
  {
    if ops == [] {
      assert ops + [last] == [last] && [last][1..] == [];
    } else {
      assert (ops + [last])[0] == ops[0] && (ops + [last])[1..] == ops[1..] + [last];
      match ops[0](p)
      case None =>
      case Some(q) => ThroughAll(ops[1..], last, q);
    }
  }

  lemma {:induction false} ArrivingIsThrough(job: Job, s: nat, x: nat)
    requires 1 <= s <= Depth(job)
    ensures Arriving(job, s, x) == if IsTuple(job, x) then Through(job.ops[..s - 1], SourceTuple(job, x)) else None
  {
    if s == 1 {
    } else {
      ArrivingIsThrough(job, s - 1, x);
      if IsTuple(job, x) {
        assert job.ops[..s - 1] == job.ops[..s - 2] + [job.ops[s - 2]];
        ThroughAll(job.ops[..s - 2], job.ops[s - 2], SourceTuple(job, x));
      }
    }
  }

  /** The key of a non-blank line is that of what all operators, in order, make of its tuple. */
  lemma CountedKeyIs(job: Job, x: nat)
    ensures CountedKey(job, x) ==
      if IsTuple(job, x) && Through(job.ops, SourceTuple(job, x)).Some? then Some(Through(job.ops, SourceTuple(job, x)).value.key)
      else None
  {
    ArrivingIsThrough(job, Depth(job), x);
    assert job.ops[..|job.ops|] == job.ops;
  }

  /** The sequential group-by over the first `upto` lines. */
  function GroupBy(job: Job, upto: nat): Counts {
    if upto == 0 then map[]
    else
      match CountedKey(job, upto - 1)
      case None => GroupBy(job, upto - 1)
      case Some(key) => Increment(GroupBy(job, upto - 1), key)
  }

  /** The part of a group-by that belongs to one counting task. */
  function PartOf(job: Job, c: Counts, task: nat): Counts
    requires ValidJob(job)
  {
    map k | k in c && job.hash(k) % job.n == task :: c[k]
  }
}
