/** The pipelined create of one file: the content travels down a chain of replicas, the
    acknowledgment travels back up. */
module CreateChain {
  import opened Maybe

  /** A node's address. */
  type Address = nat

  /** `replicate_file`: `index` is the receiver's place in the chain; the next hop, the target of
      the acknowledgment and the last-in-chain flag are what the sender wrote into the message. */
  datatype Replicate = Replicate(
    to: Address, index: nat, next: Option<Address>, ackTarget: Address, isLast: bool)

  /** The chain and the coordinator that answers the client. */
  datatype Job = Job(chain: seq<Address>, coordinator: Address)

  /** `holders` store the file, `stored` those that stored it for this create, `pending` are the
      remembered acknowledgment targets, `known` what each node knows of the other members; `delivered`
      are those an acknowledgment came to that they did not pass on. */
  datatype Net = Net(
    begun: bool, holders: set<Address>, stored: set<Address>, pending: map<Address, Address>,
    wire: set<Replicate>, acks: set<Address>, delivered: set<Address>, known: map<Address, set<Address>>)

  datatype Step =
    | Begin                       // the coordinator is not the primary and sends to it
    | BeginAsPrimary              // the coordinator is the primary: it stores, then forwards
    | Receive(m: Replicate)       // a replica stores, remembers, forwards or acknowledges
    | Relay(at: Address)          // a node passes an acknowledgment on
    | Learn(at: Address, members: set<Address>)  // membership views change at any time

  predicate Knows(net: Net, at: Address, member: Address) {
    at in net.known && member in net.known[at]
  }

  /** The address a node writes for a member: empty when it is missing from its view. */
  function Lookup(net: Net, at: Address, chain: seq<Address>, i: nat): Option<Address> {
    if i < |chain| && Knows(net, at, chain[i]) then Some(chain[i]) else None
  }

  ghost predicate Distinct(chain: seq<Address>) {
    forall i, j :: 0 <= i < j < |chain| ==> chain[i] != chain[j]
  }

  ghost predicate ValidJob(job: Job) {
    job.chain != [] && Distinct(job.chain)
  }

  /** One create in flight: nothing of this file is on the wire before it begins. Which nodes
      hold the name already and what they remember of older creates is arbitrary. */
  ghost predicate Initial(net: Net) {
    !net.begun && net.wire == {} && net.acks == {} && net.stored == {} && net.delivered == {}
  }

  ghost predicate Enabled(job: Job, net: Net, step: Step)
    requires ValidJob(job)
  {
    match step
    case Begin =>
      !net.begun && job.coordinator != job.chain[0]
    case BeginAsPrimary =>
      !net.begun && job.coordinator == job.chain[0]
    case Receive(m) => m in net.wire
    case Relay(at) => at in net.acks
    case Learn(_, _) => true
  }

  /** Storing succeeds only where the name is new. */
  function Store(net: Net, at: Address): Net {
    net.(holders := net.holders + {at}, stored := net.stored + {at})
  }

  /** The message for place `i` as node `at` composes it from its own view. */
  function Compose(job: Job, net: Net, at: Address, i: nat, ackTarget: Address): Replicate
    requires i < |job.chain|
  {
    Replicate(job.chain[i], i, Lookup(net, at, job.chain, i + 1), ackTarget, i == |job.chain| - 1)
  }

  /** The `replicate_file` handler. */
  function Handle(job: Job, net: Net, m: Replicate): Net
    requires job.chain != []
  {
    var net1 := net.(wire := net.wire - {m});
    if m.to in net.holders then
      net1  // storing fails: the handler stops
    else
      var net2 := Store(net1, m.to);
      var net3 := if m.isLast then net2 else net2.(pending := net2.pending[m.to := m.ackTarget]);
      var net4 :=
        if m.next.Some? && !m.isLast && m.index + 1 < |job.chain| then
          // the forwarded message goes to the address received, composed for the next place
          var f := Compose(job, net3, m.to, m.index + 1, m.to);
          net3.(wire := net3.wire + {f.(to := m.next.value)})
        else net3;
      if m.isLast then net4.(acks := net4.acks + {m.ackTarget}) else net4
  }

  /** The `replication_ack` handler: pass it on to the remembered target, once. */
  function HandleAck(net: Net, at: Address): Net {
    var net1 := net.(acks := net.acks - {at});
    if at in net.pending then
      net1.(pending := net.pending - {at}, acks := net1.acks + {net.pending[at]})
    else net1.(delivered := net1.delivered + {at})
  }

  ghost function Apply(job: Job, net: Net, step: Step): Net
    requires ValidJob(job) && Enabled(job, net, step)
  {
    match step
    case Begin =>
      var m := Compose(job, net, job.coordinator, 0, job.coordinator);
      net.(begun := true, wire := {m})
    case BeginAsPrimary =>
      if job.coordinator in net.holders then net.(begun := true)
      else
        var net1 := Store(net, job.coordinator).(begun := true);
        if |job.chain| == 1 then net1.(delivered := {job.coordinator})
        else if Knows(net, job.coordinator, job.chain[1]) then
          net1.(wire := {Compose(job, net, job.coordinator, 1, job.chain[0])})
        else net1
    case Receive(m) => Handle(job, net, m)
    case Relay(at) => HandleAck(net, at)
    case Learn(at, members) => net.(known := net.known[at := members])
  }

  ghost function Exec(job: Job, from: Net, steps: seq<Step>): Option<Net>
    requires ValidJob(job)
  {
    if steps == [] then Some(from)
    else
      match Exec(job, from, steps[..|steps| - 1])
      case None => None
      case Some(net) =>
        if Enabled(job, net, steps[|steps| - 1]) then Some(Apply(job, net, steps[|steps| - 1])) else None
  }

  // ---------- the invariant ----------

  /** A message on the wire is composed for its place, and everyone before that place has stored. */
  ghost predicate MessageRight(job: Job, net: Net, m: Replicate) {
    && m.index < |job.chain|
    && m.to == job.chain[m.index]
    && m.isLast == (m.index == |job.chain| - 1)
    && (m.next.Some? ==> m.index + 1 < |job.chain| && m.next.value == job.chain[m.index + 1])
    && m.ackTarget == (if m.index == 0 then job.coordinator else job.chain[m.index - 1])
    && forall i :: 0 <= i < m.index ==> job.chain[i] in net.stored
  }

  ghost predicate AllStored(job: Job, net: Net) {
    forall i :: 0 <= i < |job.chain| ==> job.chain[i] in net.stored
  }

  ghost predicate Inv(job: Job, net: Net) {
    && net.stored <= net.holders
    && (forall m :: m in net.wire ==> MessageRight(job, net, m))
    && (net.acks != {} || net.delivered != {} ==> AllStored(job, net))
    && (!net.begun ==> net.wire == {} && net.acks == {} && net.stored == {} && net.delivered == {})
  }

  lemma ReceiveKeepsInv(job: Job, net: Net, m: Replicate)
    requires ValidJob(job) && Inv(job, net) && m in net.wire
    ensures Inv(job, Handle(job, net, m))
  {
    var net' := Handle(job, net, m);
    assert MessageRight(job, net, m);
    forall x | x in net'.wire
      ensures MessageRight(job, net', x)
    {
      if x in net.wire { assert MessageRight(job, net, x); }
    }
  }

  lemma StepKeepsInv(job: Job, net: Net, step: Step)
    requires ValidJob(job) && Inv(job, net) && Enabled(job, net, step)
    ensures Inv(job, Apply(job, net, step))
  {
    match step
    case Begin =>
    case BeginAsPrimary =>
    case Receive(m) => ReceiveKeepsInv(job, net, m);
    case Relay(at) =>
      assert forall m :: m in net.wire ==> MessageRight(job, net, m);
    case Learn(_, _) =>
      assert forall m :: m in net.wire ==> MessageRight(job, net, m);
  }

  lemma {:induction false} RunsKeepInv(job: Job, from: Net, steps: seq<Step>)
    requires ValidJob(job) && Initial(from)
    ensures Exec(job, from, steps).Some? ==> Inv(job, Exec(job, from, steps).value)
  {
    if steps == [] {
    } else {
      var init := steps[..|steps| - 1];
      RunsKeepInv(job, from, init);
      if Exec(job, from, init).Some? && Enabled(job, Exec(job, from, init).value, steps[|steps| - 1]) {
        StepKeepsInv(job, Exec(job, from, init).value, steps[|steps| - 1]);
      }
    }
  }

  // ---------- what an acknowledgment means ----------

  /** An acknowledgment on its way to anyone, or delivered to anyone, the originator in particular, means
      that every replica of the chain has stored the content of this create. */
  lemma AckMeansAllStored(job: Job, from: Net, steps: seq<Step>, to: Address)
    requires ValidJob(job) && Initial(from) && Exec(job, from, steps).Some?
    requires to in Exec(job, from, steps).value.acks || to in Exec(job, from, steps).value.delivered
    ensures forall v :: v in job.chain ==> v in Exec(job, from, steps).value.stored
  {
    RunsKeepInv(job, from, steps);
    assert AllStored(job, Exec(job, from, steps).value);
  }

  /** A replica stores for this create only after everyone in front of it has. */
  lemma StoredInChainOrder(job: Job, from: Net, steps: seq<Step>, m: Replicate)
    requires ValidJob(job) && Initial(from)
    requires Exec(job, from, steps).Some? && m in Exec(job, from, steps).value.wire
    ensures m.index < |job.chain| && m.to == job.chain[m.index]
    ensures forall i :: 0 <= i < m.index ==> job.chain[i] in Exec(job, from, steps).value.stored
  {
    RunsKeepInv(job, from, steps);
    assert MessageRight(job, Exec(job, from, steps).value, m);
  }

  // ---------- how far a create is ----------

  /** The first replica that is sent a message: the primary, unless it coordinates itself. */
  function First(job: Job): nat
    requires job.chain != []
  {
    if job.coordinator == job.chain[0] then 1 else 0
  }

  function Last(job: Job): nat
    requires job.chain != []
  {
    |job.chain| - 1
  }

  function Front(job: Job, n: nat): set<Address>
    requires n <= |job.chain|
  {
    set j | 0 <= j < n :: job.chain[j]
  }

  /** Where the replica at place `i` is told to acknowledge. */
  function Target(job: Job, i: nat): Address
    requires i < |job.chain|
  {
    if i == 0 then job.coordinator else job.chain[i - 1]
  }

  function Letter(job: Job, i: nat): Replicate
    requires i < |job.chain|
  {
    Replicate(job.chain[i], i, if i < Last(job) then Some(job.chain[i + 1]) else None, Target(job, i), i == Last(job))
  }

  /** What is remembered when the places before `i` have been served. */
  function Remembered(job: Job, pending: map<Address, Address>, i: nat): map<Address, Address>
    requires job.chain != [] && i <= |job.chain|
  {
    if i <= First(job) then pending
    else Remembered(job, pending, i - 1)[job.chain[i - 1] := Target(job, i - 1)]
  }

  /** The replicas from place `k` on that have passed the acknowledgment on. */
  function Relayed(job: Job, k: nat): set<Address>
    requires job.chain != []
  {
    set j | k <= j < Last(job) :: job.chain[j]
  }

  /** What is remembered when the replicas from place `k` on have passed the acknowledgment on. */
  function Returned(job: Job, pending: map<Address, Address>, k: nat): map<Address, Address>
    requires job.chain != [] && k <= |job.chain|
  {
    Remembered(job, pending, k) - Relayed(job, k)
  }

  /** What is remembered of older creates when the chain is through. */
  function Leftover(job: Job, pending: map<Address, Address>): map<Address, Address>
    requires job.chain != []
  {
    pending - Relayed(job, First(job))
  }

  /** Where an acknowledgment to `at` ends up: it is passed on as long as something is remembered. */
  function End(pending: map<Address, Address>, at: Address): Address
    decreases |pending|
  {
    if at in pending then
      assert pending.Keys == (pending - {at}).Keys + {at};
      assert |(pending - {at}).Keys| < |pending.Keys|;
      End(pending - {at}, pending[at])
    else at
  }

  /** Who is answered in the end. */
  function Answered(job: Job, pending: map<Address, Address>): Address
    requires job.chain != []
  {
    if |job.chain| == 1 && First(job) == 1 then job.coordinator else End(Leftover(job, pending), job.coordinator)
  }

  /** Not begun; a message is on its way to a place; the acknowledgment of a place is on its way to another
      replica; it is past the chain; it has arrived; somebody refused. */
  datatype Phase = Fresh | Mail(i: nat) | Back(k: nat) | Past(at: Address, pending: map<Address, Address>) | Done | Refused

  ghost predicate NoneHolds(job: Job, from: Net) {
    forall v :: v in job.chain ==> v !in from.holders
  }

  ghost predicate Nothing(net: Net) {
    net.wire == {} && net.acks == {} && net.delivered == {}
  }

  /** Only an acknowledgment is on its way. */
  ghost predicate Relays(net: Net, to: Address, pending: map<Address, Address>) {
    net.begun && net.wire == {} && net.acks == {to} && net.delivered == {} && net.pending == pending
  }

  ghost predicate AtFresh(from: Net, net: Net) {
    !net.begun && Nothing(net) && net.stored == {} && net.pending == from.pending && net.holders == from.holders
  }

  ghost predicate AtMail(job: Job, from: Net, net: Net, i: nat)
    requires ValidJob(job)
  {
    && net.begun && First(job) <= i <= Last(job)
    && net.wire == {Letter(job, i)} && net.acks == {} && net.delivered == {}
    && net.pending == Remembered(job, from.pending, i)
    && net.holders == from.holders + Front(job, i) && Front(job, i) !! from.holders
  }

  ghost predicate AtBack(job: Job, from: Net, net: Net, k: nat)
    requires ValidJob(job)
  {
    First(job) < k <= Last(job) && NoneHolds(job, from) && Relays(net, Target(job, k), Returned(job, from.pending, k))
  }

  ghost predicate AtPast(job: Job, from: Net, net: Net, at: Address, pending: map<Address, Address>)
    requires ValidJob(job)
  {
    && NoneHolds(job, from) && Relays(net, at, pending)
    && |pending| <= |from.pending| && End(pending, at) == Answered(job, from.pending)
  }

  ghost predicate AtDone(job: Job, from: Net, net: Net)
    requires ValidJob(job)
  {
    net.begun && NoneHolds(job, from) && net.wire == {} && net.acks == {} && net.delivered == {Answered(job, from.pending)}
  }

  ghost predicate At(job: Job, from: Net, net: Net, phase: Phase)
    requires ValidJob(job)
  {
    match phase
    case Fresh => AtFresh(from, net)
    case Mail(i) => AtMail(job, from, net, i)
    case Back(k) => AtBack(job, from, net, k)
    case Past(at, pending) => AtPast(job, from, net, at, pending)
    case Done => AtDone(job, from, net)
    case Refused => net.begun && Nothing(net) && !NoneHolds(job, from)
  }

  /** More steps than are left. */
  function Left(job: Job, from: Net, phase: Phase): int {
    match phase
    case Fresh => 2 * |job.chain| + |from.pending| + 3
    case Mail(i) => 2 * |job.chain| - i + |from.pending| + 2
    case Back(k) => k + |from.pending| + 1
    case Past(_, pending) => |pending| + 1
    case Done => 0
    case Refused => 0
  }

  /** Every replica and the coordinator know the members of the chain. */
  ghost predicate ChainKnown(job: Job, net: Net) {
    forall at, v :: (at == job.coordinator || at in job.chain) && v in job.chain ==> Knows(net, at, v)
  }

  // ---------- one step further ----------

  lemma FrontGrows(job: Job, i: nat)
    requires i < |job.chain|
    ensures Front(job, i + 1) == Front(job, i) + {job.chain[i]}
  {}

  lemma ComposedIsLetter(job: Job, net: Net, at: Address, i: nat)
    requires ValidJob(job) && ChainKnown(job, net) && (at == job.coordinator || at in job.chain) && i < |job.chain|
    ensures Compose(job, net, at, i, Target(job, i)) == Letter(job, i)
  {}

  lemma SameKnown(job: Job, net: Net, other: Net)
    requires ChainKnown(job, net) && other.known == net.known
    ensures ChainKnown(job, other)
  {
    forall at, v | (at == job.coordinator || at in job.chain) && v in job.chain ensures Knows(other, at, v) {
      assert Knows(net, at, v);
    }
  }

  lemma BeginSends(job: Job, from: Net, net: Net)
    requires ValidJob(job) && At(job, from, net, Fresh) && ChainKnown(job, net) && Enabled(job, net, Begin)
    ensures At(job, from, Apply(job, net, Begin), Mail(0))
  {
    ComposedIsLetter(job, net, job.coordinator, 0);
    assert Front(job, 0) == {};
  }

  lemma NoneHoldsAll(job: Job, from: Net)
    requires Front(job, |job.chain|) !! from.holders
    ensures NoneHolds(job, from)
  {
    forall v | v in job.chain ensures v !in from.holders {
      assert v in Front(job, |job.chain|);
    }
  }

  lemma PrimaryBegins(job: Job, from: Net, net: Net) returns (phase: Phase)
    requires ValidJob(job) && At(job, from, net, Fresh) && ChainKnown(job, net) && Enabled(job, net, BeginAsPrimary)
    ensures At(job, from, Apply(job, net, BeginAsPrimary), phase) && (phase == Refused || phase == Done || phase == Mail(1))
  {
    assert job.chain[0] in job.chain;
    if job.coordinator in net.holders {
      phase := Refused;
    } else if |job.chain| == 1 {
      NoneHoldsAll(job, from);
      phase := Done;
    } else {
      ComposedIsLetter(job, net, job.coordinator, 1);
      assert job.chain[1] in job.chain && Front(job, 1) == {job.chain[0]};
      phase := Mail(1);
    }
  }

  /** A refusal ends the create. */
  lemma HolderRefuses(job: Job, from: Net, net: Net, i: nat)
    requires ValidJob(job) && At(job, from, net, Mail(i)) && job.chain[i] in net.holders
    ensures At(job, from, Handle(job, net, Letter(job, i)), Refused)
  {
    assert job.chain[i] in job.chain;
    assert job.chain[i] !in Front(job, i);
  }

  /** What a replica that stores does, if it is not the last one. */
  lemma Forwards(job: Job, net: Net, i: nat)
    requires ValidJob(job) && ChainKnown(job, net) && i < Last(job)
    requires net.wire == {Letter(job, i)} && job.chain[i] !in net.holders
    ensures var net' := Handle(job, net, Letter(job, i));
      && net'.wire == {Letter(job, i + 1)} && net'.pending == net.pending[job.chain[i] := Target(job, i)]
      && net'.holders == net.holders + {job.chain[i]}
      && net'.begun == net.begun && net'.acks == net.acks && net'.delivered == net.delivered
  {
    assert job.chain[i] in job.chain;
    var m := Letter(job, i);
    var net3 := Store(net.(wire := net.wire - {m}), m.to).(pending := net.pending[m.to := m.ackTarget]);
    SameKnown(job, net, net3);
    ComposedIsLetter(job, net3, m.to, i + 1);
    assert net3.wire == {};
  }

  /** And if it is. */
  lemma Acknowledges(job: Job, net: Net)
    requires ValidJob(job) && net.wire == {Letter(job, Last(job))} && job.chain[Last(job)] !in net.holders
    ensures var net' := Handle(job, net, Letter(job, Last(job)));
      && net'.wire == {} && net'.pending == net.pending && net'.holders == net.holders + {job.chain[Last(job)]}
      && net'.acks == net.acks + {Target(job, Last(job))} && net'.begun == net.begun && net'.delivered == net.delivered
  {}

  lemma ReceiveForwards(job: Job, from: Net, net: Net, i: nat)
    requires ValidJob(job) && At(job, from, net, Mail(i)) && ChainKnown(job, net) && job.chain[i] !in net.holders
    requires i < Last(job)
    ensures At(job, from, Handle(job, net, Letter(job, i)), Mail(i + 1))
  {
    Forwards(job, net, i);
    FrontGrows(job, i);
  }

  lemma NothingRelayed(job: Job)
    requires job.chain != []
    ensures Relayed(job, Last(job)) == {}
  {}

  lemma MinusNothing<K, V>(m: map<K, V>, none: set<K>)
    requires none == {}
    ensures m - none == m
  {}

  lemma LastIsDone(job: Job, from: Net, net: Net)
    requires ValidJob(job) && At(job, from, net, Mail(Last(job))) && job.chain[Last(job)] !in net.holders
    ensures NoneHolds(job, from)
  {
    FrontGrows(job, Last(job));
    NoneHoldsAll(job, from);
  }

  lemma OnlyReplicaAcknowledges(job: Job, from: Net, net: Net)
    requires ValidJob(job) && At(job, from, net, Mail(Last(job))) && job.chain[Last(job)] !in net.holders
    requires Last(job) == First(job)
    ensures At(job, from, Handle(job, net, Letter(job, Last(job))), Past(job.coordinator, from.pending))
  {
    Acknowledges(job, net);
    LastIsDone(job, from, net);
    NothingRelayed(job);
    MinusNothing(from.pending, Relayed(job, Last(job)));
  }

  lemma LastAcknowledges(job: Job, from: Net, net: Net)
    requires ValidJob(job) && At(job, from, net, Mail(Last(job))) && job.chain[Last(job)] !in net.holders
    requires First(job) < Last(job)
    ensures At(job, from, Handle(job, net, Letter(job, Last(job))), Back(Last(job)))
  {
    Acknowledges(job, net);
    LastIsDone(job, from, net);
    NothingRelayed(job);
    MinusNothing(net.pending, Relayed(job, Last(job)));
  }

  lemma RelayedGrows(job: Job, k: nat)
    requires job.chain != [] && 0 < k <= Last(job)
    ensures Relayed(job, k - 1) == Relayed(job, k) + {job.chain[k - 1]}
  {}

  /** The replica in front of place `k` still remembers where to pass it on to. */
  lemma StillRemembered(job: Job, pending: map<Address, Address>, k: nat)
    requires ValidJob(job) && First(job) < k <= Last(job)
    ensures var p := Returned(job, pending, k);
      && job.chain[k - 1] in p && p[job.chain[k - 1]] == Target(job, k - 1)
      && p - {job.chain[k - 1]} == Returned(job, pending, k - 1)
  {
    RelayedGrows(job, k);
    assert job.chain[k - 1] !in Relayed(job, k);
  }

  lemma SubMapSize<K, V>(m: map<K, V>, gone: set<K>)
    ensures |m - gone| <= |m|
  {
    assert m.Keys == (m - gone).Keys + (m.Keys * gone);
    assert |m.Keys| == |(m - gone).Keys| + |m.Keys * gone|;
  }

  lemma PassesOn(net: Net, at: Address, pending: map<Address, Address>)
    requires Relays(net, at, pending) && at in pending
    ensures Relays(HandleAck(net, at), pending[at], pending - {at})
  {}

  lemma RelayGoesBack(job: Job, from: Net, net: Net, k: nat)
    requires ValidJob(job) && At(job, from, net, Back(k))
    ensures Relays(HandleAck(net, Target(job, k)), Target(job, k - 1), Returned(job, from.pending, k - 1))
  {
    StillRemembered(job, from.pending, k);
    PassesOn(net, Target(job, k), Returned(job, from.pending, k));
  }

  lemma AllReturned(job: Job, pending: map<Address, Address>)
    requires job.chain != []
    ensures Returned(job, pending, First(job)) == Leftover(job, pending) && |Leftover(job, pending)| <= |pending|
  {
    SubMapSize(pending, Relayed(job, First(job)));
  }

  lemma LeavesChain(job: Job, from: Net, net: Net)
    requires ValidJob(job) && |job.chain| > 1 && NoneHolds(job, from)
    requires Relays(net, Target(job, First(job)), Returned(job, from.pending, First(job)))
    ensures At(job, from, net, Past(job.coordinator, Leftover(job, from.pending)))
    ensures |Leftover(job, from.pending)| <= |from.pending|
  {
    AllReturned(job, from.pending);
  }

  lemma PassedOn(job: Job, from: Net, net: Net, at: Address, pending: map<Address, Address>) returns (phase: Phase)
    requires ValidJob(job) && At(job, from, net, Past(at, pending))
    ensures At(job, from, HandleAck(net, at), phase)
    ensures Left(job, from, phase) < Left(job, from, Past(at, pending))
  {
    if at in pending {
      assert pending.Keys == (pending - {at}).Keys + {at};
      assert |(pending - {at}).Keys| < |pending.Keys|;
      phase := Past(pending[at], pending - {at});
    } else {
      phase := Done;
    }
  }

  lemma LearnStays(job: Job, from: Net, net: Net, phase: Phase, at: Address, members: set<Address>)
    requires ValidJob(job) && At(job, from, net, phase)
    ensures At(job, from, Apply(job, net, Learn(at, members)), phase)
  {}

  lemma ReceiveAdvances(job: Job, from: Net, net: Net, i: nat) returns (next: Phase)
    requires ValidJob(job) && ChainKnown(job, net) && At(job, from, net, Mail(i))
    ensures At(job, from, Handle(job, net, Letter(job, i)), next) && Left(job, from, next) < Left(job, from, Mail(i))
  {
    if job.chain[i] in net.holders {
      HolderRefuses(job, from, net, i);
      next := Refused;
    } else if i < Last(job) {
      ReceiveForwards(job, from, net, i);
      next := Mail(i + 1);
    } else if First(job) < Last(job) {
      LastAcknowledges(job, from, net);
      next := Back(Last(job));
    } else {
      OnlyReplicaAcknowledges(job, from, net);
      next := Past(job.coordinator, from.pending);
    }
  }

  lemma RelayStaysInChain(job: Job, from: Net, net: Net, k: nat)
    requires ValidJob(job) && At(job, from, net, Back(k)) && k > First(job) + 1
    ensures At(job, from, HandleAck(net, Target(job, k)), Back(k - 1))
  {
    RelayGoesBack(job, from, net, k);
  }

  lemma RelayLeavesChain(job: Job, from: Net, net: Net)
    requires ValidJob(job) && At(job, from, net, Back(First(job) + 1))
    ensures At(job, from, HandleAck(net, Target(job, First(job) + 1)), Past(job.coordinator, Leftover(job, from.pending)))
    ensures |Leftover(job, from.pending)| <= |from.pending|
  {
    RelayGoesBack(job, from, net, First(job) + 1);
    LeavesChain(job, from, HandleAck(net, Target(job, First(job) + 1)));
  }

  function NextBack(job: Job, from: Net, k: nat): Phase
    requires job.chain != []
  {
    if k > First(job) + 1 then Back(k - 1) else Past(job.coordinator, Leftover(job, from.pending))
  }

  lemma RelayAdvances(job: Job, from: Net, net: Net, k: nat)
    requires ValidJob(job) && At(job, from, net, Back(k))
    ensures At(job, from, HandleAck(net, Target(job, k)), NextBack(job, from, k))
    ensures Left(job, from, NextBack(job, from, k)) < Left(job, from, Back(k))
  {
    if k > First(job) + 1 {
      RelayStaysInChain(job, from, net, k);
    } else {
      assert k == First(job) + 1;
      RelayLeavesChain(job, from, net);
    }
  }

  /** Every step but learning brings the create one phase further. */
  lemma StepAdvances(job: Job, from: Net, net: Net, phase: Phase, step: Step) returns (next: Phase)
    requires ValidJob(job) && ChainKnown(job, net) && At(job, from, net, phase) && Enabled(job, net, step)
    ensures At(job, from, Apply(job, net, step), next)
    ensures if step.Learn? then next == phase else Left(job, from, next) < Left(job, from, phase)
  {
    match step
    case Learn(at, members) =>
      LearnStays(job, from, net, phase, at, members);
      next := phase;
    case Begin =>
      BeginSends(job, from, net);
      next := Mail(0);
    case BeginAsPrimary =>
      next := PrimaryBegins(job, from, net);
    case Receive(m) =>
      next := ReceiveAdvances(job, from, net, phase.i);
    case Relay(at) =>
      if phase.Back? {
        RelayAdvances(job, from, net, phase.k);
        next := NextBack(job, from, phase.k);
      } else {
        next := PassedOn(job, from, net, at, phase.pending);
      }
  }

  // ---------- every run ----------

  /** At every point of the run the chain is known where it matters. */
  ghost predicate AlwaysKnown(job: Job, from: Net, steps: seq<Step>)
    requires ValidJob(job)
  {
    forall k :: 0 <= k <= |steps| && Exec(job, from, steps[..k]).Some? ==> ChainKnown(job, Exec(job, from, steps[..k]).value)
  }

  /** How many steps are not just learning. */
  function Work(steps: seq<Step>): nat {
    if steps == [] then 0 else Work(steps[..|steps| - 1]) + if steps[|steps| - 1].Learn? then 0 else 1
  }

  lemma {:induction false} RunsAdvance(job: Job, from: Net, steps: seq<Step>) returns (phase: Phase)
    requires ValidJob(job) && Initial(from) && Exec(job, from, steps).Some? && AlwaysKnown(job, from, steps)
    ensures At(job, from, Exec(job, from, steps).value, phase)
    ensures Work(steps) + Left(job, from, phase) <= Left(job, from, Fresh)
  {
    if steps == [] {
      phase := Fresh;
    } else {
      var before := steps[..|steps| - 1];
      forall k | 0 <= k <= |before| && Exec(job, from, before[..k]).Some?
        ensures ChainKnown(job, Exec(job, from, before[..k]).value)
      {
        assert before[..k] == steps[..k];
      }
      phase := RunsAdvance(job, from, before);
      assert steps[..|before|] == before;
      phase := StepAdvances(job, from, Exec(job, from, before).value, phase, steps[|steps| - 1]);
    }
  }

  // ---------- main results ----------

  /** No step is possible but learning. */
  ghost predicate Settled(job: Job, net: Net)
    requires ValidJob(job)
  {
    forall step {:trigger Enabled(job, net, step)} :: Enabled(job, net, step) ==> step.Learn?
  }

  /** While the create is not through, some step is possible. */
  lemma CanGoOn(job: Job, from: Net, net: Net, phase: Phase) returns (step: Step)
    requires ValidJob(job) && At(job, from, net, phase) && !phase.Done? && !phase.Refused?
    ensures Enabled(job, net, step) && !step.Learn?
  {
    match phase
    case Fresh => step := if First(job) == 1 then BeginAsPrimary else Begin;
    case Mail(i) => step := Receive(Letter(job, i));
    case Back(k) => step := Relay(Target(job, k));
    case Past(at, _) => step := Relay(at);
    case _ =>
  }

  lemma SettledPhase(job: Job, from: Net, net: Net, phase: Phase)
    requires ValidJob(job) && At(job, from, net, phase) && Settled(job, net)
    ensures phase.Done? || phase.Refused?
  {
    if !phase.Done? && !phase.Refused? {
      var step := CanGoOn(job, from, net, phase);
    }
  }

  /** What a create comes to, if the members of the chain stay known: when no message and no acknowledgment
      is on its way any more, exactly one node has been answered if no replica had the name before, and
      nobody otherwise. It is the one `Answered` says; the number of steps is bounded. */
  lemma CreateComesTo(job: Job, from: Net, steps: seq<Step>)
    requires ValidJob(job) && Initial(from) && Exec(job, from, steps).Some? && AlwaysKnown(job, from, steps)
    ensures Work(steps) <= 2 * |job.chain| + |from.pending| + 3
    ensures var net := Exec(job, from, steps).value;
      Settled(job, net) ==>
        net.delivered == if NoneHolds(job, from) then {Answered(job, from.pending)} else {}
  {
    var phase := RunsAdvance(job, from, steps);
    if Settled(job, Exec(job, from, steps).value) {
      SettledPhase(job, from, Exec(job, from, steps).value, phase);
    }
  }

  /** The originator is answered if and only if no replica had the name before, as long as it does not
      remember an older create of the name that broke off. */
  lemma OriginatorAnsweredIff(job: Job, from: Net, steps: seq<Step>)
    requires ValidJob(job) && Initial(from) && Exec(job, from, steps).Some? && AlwaysKnown(job, from, steps)
    requires Settled(job, Exec(job, from, steps).value)
    requires job.coordinator !in from.pending || job.coordinator in Relayed(job, First(job))
    ensures job.coordinator in Exec(job, from, steps).value.delivered <==> NoneHolds(job, from)
  {
    CreateComesTo(job, from, steps);
  }

  /** Without that the acknowledgment is passed on to whoever the older create was for. */
  lemma StaleTargetIsAnswered(job: Job, from: Net, steps: seq<Step>)
    requires ValidJob(job) && Initial(from) && Exec(job, from, steps).Some? && AlwaysKnown(job, from, steps)
    requires Settled(job, Exec(job, from, steps).value) && NoneHolds(job, from) && |job.chain| > 1
    requires job.coordinator in from.pending && job.coordinator !in Relayed(job, First(job))
    requires from.pending[job.coordinator] !in Leftover(job, from.pending) && from.pending[job.coordinator] != job.coordinator
    ensures Exec(job, from, steps).value.delivered == {from.pending[job.coordinator]}
  {
    CreateComesTo(job, from, steps);
    var p: map<Address, Address>, at: Address := Leftover(job, from.pending), job.coordinator;
    var rest: map<Address, Address> := p - {at};
    assert End(rest, p[job.coordinator]) == p[job.coordinator];
  }

  lemma OneMore(job: Job, from: Net, steps: seq<Step>, net: Net, step: Step)
    requires ValidJob(job) && Exec(job, from, steps) == Some(net) && Enabled(job, net, step)
    ensures Exec(job, from, steps + [step]) == Some(Apply(job, net, step))
  {
    assert (steps + [step])[..|steps|] == steps;
  }

  lemma ApplyKeepsKnown(job: Job, net: Net, step: Step)
    requires ValidJob(job) && Enabled(job, net, step) && !step.Learn?
    ensures Apply(job, net, step).known == net.known
  {}

  lemma ThroughMeansSettled(job: Job, from: Net, net: Net, phase: Phase)
    requires ValidJob(job) && At(job, from, net, phase) && (phase.Done? || phase.Refused?)
    ensures Settled(job, net)
  {}

  /** The run has led to this phase, with the chain known. */
  ghost predicate Reached(job: Job, from: Net, steps: seq<Step>, phase: Phase)
    requires ValidJob(job)
  {
    && Exec(job, from, steps).Some? && ChainKnown(job, Exec(job, from, steps).value)
    && At(job, from, Exec(job, from, steps).value, phase)
  }

  lemma GoOn(job: Job, from: Net, steps: seq<Step>, phase: Phase) returns (step: Step, next: Phase)
    requires ValidJob(job) && Reached(job, from, steps, phase) && !phase.Done? && !phase.Refused?
    ensures !step.Learn? && Reached(job, from, steps + [step], next) && Left(job, from, next) < Left(job, from, phase)
  {
    var net := Exec(job, from, steps).value;
    step := CanGoOn(job, from, net, phase);
    next := StepAdvances(job, from, net, phase, step);
    OneMore(job, from, steps, net, step);
    ApplyKeepsKnown(job, net, step);
    SameKnown(job, net, Apply(job, net, step));
  }

  predicate NoLearning(steps: seq<Step>, from: nat) {
    forall i :: from <= i < |steps| ==> !steps[i].Learn?
  }

  /** Every run can be continued without learning until it has settled. */
  lemma CreateCanSettle(job: Job, from: Net, steps: seq<Step>, phase: Phase) returns (all: seq<Step>)
    requires ValidJob(job) && Reached(job, from, steps, phase)
    ensures steps <= all && NoLearning(all, |steps|)
    ensures Exec(job, from, all).Some? && Settled(job, Exec(job, from, all).value)
    decreases Left(job, from, phase)
  {
    if phase.Done? || phase.Refused? {
      ThroughMeansSettled(job, from, Exec(job, from, steps).value, phase);
      all := steps;
    } else {
      var step, next := GoOn(job, from, steps, phase);
      all := CreateCanSettle(job, from, steps + [step], next);
      assert all[|steps|] == step;
    }
  }

  /** In particular, from the start. */
  lemma CreateCanFinish(job: Job, from: Net) returns (steps: seq<Step>)
    requires ValidJob(job) && Initial(from) && ChainKnown(job, from)
    ensures Exec(job, from, steps).Some? && Settled(job, Exec(job, from, steps).value)
    ensures Exec(job, from, steps).value.delivered == if NoneHolds(job, from) then {Answered(job, from.pending)} else {}
  {
    steps := CreateCanSettle(job, from, [], Fresh);
    KnownStays(job, from, steps);
    CreateComesTo(job, from, steps);
  }

  lemma {:induction false} KnownUnchanged(job: Job, from: Net, steps: seq<Step>)
    requires ValidJob(job) && NoLearning(steps, 0)
    ensures Exec(job, from, steps).Some? ==> Exec(job, from, steps).value.known == from.known
  {
    if steps == [] {
    } else {
      var before, last := steps[..|steps| - 1], steps[|steps| - 1];
      KnownUnchanged(job, from, before);
      if Exec(job, from, before).Some? && Enabled(job, Exec(job, from, before).value, last) {
        ApplyKeepsKnown(job, Exec(job, from, before).value, last);
      }
    }
  }

  lemma KnownStays(job: Job, from: Net, steps: seq<Step>)
    requires ValidJob(job) && ChainKnown(job, from) && NoLearning(steps, 0)
    ensures AlwaysKnown(job, from, steps)
  {
    forall k | 0 <= k <= |steps| && Exec(job, from, steps[..k]).Some?
      ensures ChainKnown(job, Exec(job, from, steps[..k]).value)
    {
      KnownUnchanged(job, from, steps[..k]);
      SameKnown(job, from, Exec(job, from, steps[..k]).value);
    }
  }
}
