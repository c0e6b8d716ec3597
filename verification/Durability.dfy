/** Re-replication after failures: rounds of (fail, every node scans, messages arrive). */
module Durability {
  import opened FileNames
  import opened Maybe
  import opened Ring

  /** What a node keeps of a file: its name, its ring hash and its bytes. */
  datatype Stored = Stored(name: string, fileID: RingId, content: string)

  /** A node's files by their directories. */
  type Store = map<string, Stored>

  /** A `rereplicate_file` message. */
  datatype Message = Message(to: RingId, file: Stored)

  /** `due` holds the nodes whose scan after the last membership change is still to run; `catalog`
      the files whose creation succeeded, by name. */
  datatype Cluster = Cluster(
    alive: set<RingId>,
    stores: map<RingId, Store>,
    due: set<RingId>,
    wire: set<Message>,
    catalog: map<string, Stored>)

  datatype Step =
    | Create(name: string, content: string)
    | Fail(gone: set<RingId>)
    | Join(added: set<RingId>)
    | Scan(node: RingId)
    | Deliver(message: Message)

  type Hash = string -> RingId

  ghost function Replicas(c: Cluster, fileID: RingId): seq<RingId> {
    Successors(fileID, c.alive, NUM_REPLICAS)
  }

  predicate Holds(c: Cluster, node: RingId, file: Stored) {
    node in c.stores && DirOf(file.name) in c.stores[node] && c.stores[node][DirOf(file.name)] == file
  }

  predicate Quiet(c: Cluster) {
    c.due == {} && c.wire == {}
  }

  /** The messages one scan sends: the directories on the top level are read; for each file whose
      primary the node is, one message goes to every other expected replica. */
  ghost function ScanMessages(c: Cluster, node: RingId): set<Message>
    requires node in c.stores
  {
    set d, to | d in c.stores[node] && '/' !in d && to in Others(c, node, c.stores[node][d])
      :: Message(to, c.stores[node][d])
  }

  ghost function Others(c: Cluster, node: RingId, file: Stored): set<RingId> {
    set to | to in Replicas(c, file.fileID) && Replicas(c, file.fileID)[0] == node && to != node
  }

  /** `CreateFile` refuses a name whose directory exists already. */
  function Put(s: Store, file: Stored): Store {
    if Occupied(s, DirOf(file.name)) then s else s[DirOf(file.name) := file]
  }

  /** How far a pipelined create gets: the chain stops at the first node that refuses. */
  function Accepting(stores: map<RingId, Store>, chain: seq<RingId>, d: string): (k: nat)
    ensures k <= |chain|
  {
    if chain == [] || chain[0] !in stores || Occupied(stores[chain[0]], d) then 0
    else 1 + Accepting(stores, chain[1..], d)
  }

  ghost predicate Enabled(c: Cluster, step: Step) {
    match step
    case Create(_, _) =>
      Quiet(c)
    case Fail(gone) =>
      // a round loses at most two nodes and leaves at least one
      Quiet(c) && gone <= c.alive && |gone| <= 2 && gone != c.alive
    case Join(added) =>
      Quiet(c) && added !! c.alive
    case Scan(node) =>
      node in c.due && node in c.stores
    case Deliver(m) =>
      m in c.wire
  }

  /** A create stores along the chain as far as it is accepted, and succeeds if that is all of it. */
  ghost function CreateOn(c: Cluster, file: Stored): Cluster {
    var chain := Replicas(c, file.fileID);
    var k := Accepting(c.stores, chain, DirOf(file.name));
    c.(stores := map v | v in c.stores :: if v in chain[..k] then Put(c.stores[v], file) else c.stores[v],
       catalog := if chain != [] && k == |chain| then c.catalog[file.name := file] else c.catalog)
  }

  ghost function Apply(hash: Hash, c: Cluster, step: Step): Cluster
    requires Enabled(c, step)
  {
    match step
    case Create(name, content) => CreateOn(c, Stored(name, hash(name), content))
    case Fail(gone) =>
      c.(alive := c.alive - gone, stores := c.stores - gone, due := c.alive - gone)
    case Join(added) =>
      c.(alive := c.alive + added,
         stores := map v | v in c.alive + added :: if v in c.stores then c.stores[v] else map[],
         due := c.alive + added)
    case Scan(node) =>
      c.(due := c.due - {node}, wire := c.wire + ScanMessages(c, node))
    case Deliver(m) =>
      var c' := c.(wire := c.wire - {m});
      if m.to in c.stores then c'.(stores := c.stores[m.to := Put(c.stores[m.to], m.file)]) else c'
  }

  function Start(nodes: set<RingId>): Cluster {
    Cluster(nodes, map v | v in nodes :: map[], {}, {}, map[])
  }

  /** The cluster after a run of steps, or nothing if some step was not possible. */
  ghost function Exec(hash: Hash, from: Cluster, steps: seq<Step>): Option<Cluster> {
    if steps == [] then Some(from)
    else
      match Exec(hash, from, steps[..|steps| - 1])
      case None => None
      case Some(c) =>
        if Enabled(c, steps[|steps| - 1]) then Some(Apply(hash, c, steps[|steps| - 1])) else None
  }

  // ---------- names that do not get into each other's way ----------

  /** Apart from names that no node can store, every name has a directory of its own, on the top level
      where the scan finds it. */
  ghost predicate Apart(names: iset<string>) {
    forall a :: a in names && DirOf(a) != "" ==>
      '/' !in DirOf(a) && forall b :: b in names && b != a ==> DirOf(b) != DirOf(a)
  }

  ghost predicate Within(c: Cluster, names: iset<string>) {
    forall name :: name in c.catalog ==> name in names
  }

  // ---------- the invariant ----------

  /** Every copy and every message carries a file as it was created, under its directory. */
  ghost predicate Faithful(c: Cluster) {
    && c.stores.Keys == c.alive
    && c.due <= c.alive
    && (forall name :: name in c.catalog ==> c.catalog[name].name == name && DirOf(name) != "")
    && (forall v :: v in c.stores ==> StoreFaithful(c.catalog, c.stores[v]))
    && (forall m :: m in c.wire ==> FileFaithful(c.catalog, m.file))
  }

  predicate FileFaithful(catalog: map<string, Stored>, file: Stored) {
    file.name in catalog && catalog[file.name] == file
  }

  ghost predicate StoreFaithful(catalog: map<string, Stored>, s: Store) {
    forall d :: d in s ==> d != "" && DirOf(s[d].name) == d && FileFaithful(catalog, s[d])
  }

  /** The primary holds the file, and every other replica holds it, is about to receive it, or
      waits for the primary's scan. */
  ghost predicate Covered(c: Cluster, file: Stored) {
    var r := Replicas(c, file.fileID);
    r != [] ==>
      && Holds(c, r[0], file)
      && forall v :: v in r ==> Holds(c, v, file) || Message(v, file) in c.wire || r[0] in c.due
  }

  ghost predicate Uncovered(c: Cluster, file: Stored) {
    var r := Replicas(c, file.fileID);
    && r != []
    && !Holds(c, r[0], file)
    && forall m :: m in c.wire && m.file == file ==> m.to != r[0]
  }

  ghost predicate Durable(hash: Hash, c: Cluster) {
    && Faithful(c)
    && (forall name :: name in c.catalog ==> c.catalog[name].fileID == hash(name))
    && forall name :: name in c.catalog ==> Covered(c, c.catalog[name])
  }

  ghost predicate HeldByAllReplicas(c: Cluster, file: Stored) {
    forall v :: v in Replicas(c, file.fileID) ==> Holds(c, v, file)
  }

  lemma ReplicasAlive(c: Cluster, fileID: RingId)
    ensures |Replicas(c, fileID)| == if |c.alive| < NUM_REPLICAS then |c.alive| else NUM_REPLICAS
    ensures forall v :: v in Replicas(c, fileID) ==> v in c.alive
  {
    SuccessorsWithin(fileID, c.alive, NUM_REPLICAS);
  }

  // ---------- creating ----------

  /** A directory that is occupied in a faithful store is occupied by the same name. */
  lemma OccupiedBySame(names: iset<string>, catalog: map<string, Stored>, s: Store, name: string)
    requires Apart(names) && StoreFaithful(catalog, s) && name in names && DirOf(name) != ""
    requires forall n :: n in catalog ==> n in names
    ensures Occupied(s, DirOf(name)) <==> DirOf(name) in s
    ensures DirOf(name) in s ==> s[DirOf(name)].name == name
  {
    var d := DirOf(name);
    forall k | k in s ensures Below(k, d) ==> k == d {
      assert s[k].name in names && DirOf(s[k].name) == k;
      NestedHasSlash(k, d);
    }
  }

  /** Creating a new name succeeds on the whole chain; creating one that exists stores nothing. */
  lemma CreateAllOrNothing(hash: Hash, names: iset<string>, c: Cluster, name: string, chain: seq<RingId>)
    requires Apart(names) && Durable(hash, c) && Within(c, names) && name in names
    requires forall v :: v in chain ==> v in c.alive
    requires DirOf(name) == "" || (name in c.catalog && chain != [] && Holds(c, chain[0], c.catalog[name]))
    ensures Accepting(c.stores, chain, DirOf(name)) == 0
  {
    if DirOf(name) != "" {
      assert chain[0] in c.stores && DirOf(name) in c.stores[chain[0]];
      OccupiedBySame(names, c.catalog, c.stores[chain[0]], name);
    }
  }

  lemma {:induction false} NewNameAccepted(names: iset<string>, c: Cluster, name: string, chain: seq<RingId>)
    requires Apart(names) && Faithful(c) && Within(c, names) && name in names && name !in c.catalog && DirOf(name) != ""
    requires forall v :: v in chain ==> v in c.alive
    ensures Accepting(c.stores, chain, DirOf(name)) == |chain|
    ensures forall v :: v in chain ==> !Occupied(c.stores[v], DirOf(name))
  {
    if chain == [] {
    } else {
      var v := chain[0];
      assert StoreFaithful(c.catalog, c.stores[v]);
      OccupiedBySame(names, c.catalog, c.stores[v], name);
      assert forall u :: u in chain[1..] ==> u in chain;
      NewNameAccepted(names, c, name, chain[1..]);
      assert forall u :: u in chain ==> u == v || u in chain[1..];
    }
  }

  lemma CreateKeepsDurable(hash: Hash, names: iset<string>, c: Cluster, name: string, content: string)
    requires Apart(names) && Durable(hash, c) && Within(c, names) && name in names && Quiet(c)
    ensures Durable(hash, CreateOn(c, Stored(name, hash(name), content)))
    ensures Within(CreateOn(c, Stored(name, hash(name), content)), names)
  {
    var file := Stored(name, hash(name), content);
    var c' := CreateOn(c, file);
    var chain := Replicas(c, file.fileID);
    ReplicasAlive(c, file.fileID);
    if DirOf(name) == "" || name in c.catalog {
      if chain == [] {
        assert c' == c by { NothingStored(c, file); }
      } else {
        assert name in c.catalog ==> Covered(c, c.catalog[name]);
        CreateAllOrNothing(hash, names, c, name, chain);
        assert c' == c by { NothingStored(c, file); }
      }
    } else {
      NewNameAccepted(names, c, name, chain);
      NewFileStored(hash, names, c, file);
    }
  }

  lemma NothingStored(c: Cluster, file: Stored)
    requires Accepting(c.stores, Replicas(c, file.fileID), DirOf(file.name)) == 0
    ensures CreateOn(c, file) == c
  {}

  ghost predicate AllAccept(c: Cluster, file: Stored) {
    var chain := Replicas(c, file.fileID);
    && DirOf(file.name) != ""
    && (forall v :: v in chain ==> v in c.stores && !Occupied(c.stores[v], DirOf(file.name)))
    && Accepting(c.stores, chain, DirOf(file.name)) == |chain|
  }

  /** What a successful create leaves, node by node. */
  lemma CreatedEverywhere(c: Cluster, file: Stored)
    requires AllAccept(c, file)
    ensures var c' := CreateOn(c, file);
      && c'.alive == c.alive && c'.due == c.due && c'.wire == c.wire && c'.stores.Keys == c.stores.Keys
      && c'.catalog == (if Replicas(c, file.fileID) != [] then c.catalog[file.name := file] else c.catalog)
      && forall v :: v in c.stores ==>
           c'.stores[v] == if v in Replicas(c, file.fileID) then c.stores[v][DirOf(file.name) := file] else c.stores[v]
  {
    var chain := Replicas(c, file.fileID);
    assert chain[..|chain|] == chain;
  }

  lemma NewFileStored(hash: Hash, names: iset<string>, c: Cluster, file: Stored)
    requires Durable(hash, c) && Within(c, names) && file.name in names && Quiet(c)
    requires file.name !in c.catalog && file.fileID == hash(file.name) && AllAccept(c, file)
    ensures Durable(hash, CreateOn(c, file)) && Within(CreateOn(c, file), names)
  {
    CreatedEverywhere(c, file);
    if Replicas(c, file.fileID) == [] {
      assert CreateOn(c, file) == c by { NothingStored(c, file); }
    } else {
      NewFileFaithful(c, file);
      NewFileCovered(c, file);
    }
  }

  lemma NewFileCovered(c: Cluster, file: Stored)
    requires Faithful(c) && Quiet(c) && file.name !in c.catalog && AllAccept(c, file) && Replicas(c, file.fileID) != []
    requires forall name :: name in c.catalog ==> Covered(c, c.catalog[name])
    ensures forall name :: name in CreateOn(c, file).catalog ==> Covered(CreateOn(c, file), CreateOn(c, file).catalog[name])
  {
    CreatedEverywhere(c, file);
    var c' := CreateOn(c, file);
    forall n | n in c'.catalog ensures Covered(c', c'.catalog[n]) {
      if n == file.name {
        NewFileHeld(c, file);
      } else {
        assert Covered(c, c.catalog[n]);
        StaysCovered(c, file, c.catalog[n]);
      }
    }
  }

  lemma NewFileHeld(c: Cluster, file: Stored)
    requires AllAccept(c, file)
    ensures Covered(CreateOn(c, file), file)
  {
    CreatedEverywhere(c, file);
    assert Replicas(CreateOn(c, file), file.fileID) == Replicas(c, file.fileID);
  }

  lemma NewFileFaithful(c: Cluster, file: Stored)
    requires Faithful(c) && Quiet(c) && file.name !in c.catalog && AllAccept(c, file) && Replicas(c, file.fileID) != []
    ensures Faithful(CreateOn(c, file))
  {
    var c' := CreateOn(c, file);
    CreatedEverywhere(c, file);
    forall v | v in c'.stores ensures StoreFaithful(c'.catalog, c'.stores[v]) {
      StoreGrows(c.catalog, c.stores[v], file);
    }
  }

  lemma StoreGrows(catalog: map<string, Stored>, s: Store, file: Stored)
    requires StoreFaithful(catalog, s) && file.name !in catalog && DirOf(file.name) != ""
    ensures StoreFaithful(catalog[file.name := file], s)
    ensures StoreFaithful(catalog[file.name := file], s[DirOf(file.name) := file])
  {}

  /** Storing a new file leaves the other files with their holders. */
  lemma StaysCovered(c: Cluster, file: Stored, other: Stored)
    requires Covered(c, other) && Quiet(c) && AllAccept(c, file)
    ensures Covered(CreateOn(c, file), other)
  {
    var c' := CreateOn(c, file);
    CreatedEverywhere(c, file);
    forall v | Holds(c, v, other) ensures Holds(c', v, other) {
      assert DirOf(other.name) in c.stores[v];
      if v in Replicas(c, file.fileID) {
        assert !Occupied(c.stores[v], DirOf(file.name));
        assert Below(DirOf(file.name), DirOf(file.name));
      }
    }
  }

  // ---------- failures ----------

  lemma FailKeepsDurable(hash: Hash, c: Cluster, step: Step)
    requires Durable(hash, c) && step.Fail? && Enabled(c, step)
    ensures Durable(hash, Apply(hash, c, step))
  {
    var c' := Apply(hash, c, step);
    forall name | name in c'.catalog ensures Covered(c', c'.catalog[name]) {
      FailKeepsCovered(c, step.gone, c.catalog[name]);
    }
  }

  lemma FailKeepsCovered(c: Cluster, gone: set<RingId>, file: Stored)
    requires Faithful(c) && Covered(c, file) && Quiet(c) && gone <= c.alive && |gone| <= 2 && gone != c.alive
    ensures Covered(c.(alive := c.alive - gone, stores := c.stores - gone, due := c.alive - gone), file)
  {
    var c' := c.(alive := c.alive - gone, stores := c.stores - gone, due := c.alive - gone);
    ReplicasAlive(c', file.fileID);
    FewerLostThanReplicas(file.fileID, c.alive, gone, NUM_REPLICAS);
    NewPrimaryIsOldReplica(file.fileID, c.alive, gone, NUM_REPLICAS);
    var p := Replicas(c', file.fileID)[0];
    assert p in Replicas(c, file.fileID) && p in c'.alive;
    assert Holds(c, p, file);
  }

  // ---------- scans and deliveries ----------

  lemma ScanKeepsCovered(c: Cluster, node: RingId, file: Stored)
    requires Faithful(c) && Enabled(c, Scan(node)) && Covered(c, file) && '/' !in DirOf(file.name)
    ensures Covered(c.(due := c.due - {node}, wire := c.wire + ScanMessages(c, node)), file)
  {
    var c' := c.(due := c.due - {node}, wire := c.wire + ScanMessages(c, node));
    var r := Replicas(c, file.fileID);
    assert Replicas(c', file.fileID) == r;
    if r != [] {
      assert Holds(c', r[0], file);
      forall v | v in r ensures Holds(c', v, file) || Message(v, file) in c'.wire || r[0] in c'.due {
        if r[0] == node && v != r[0] {
          assert v in Others(c, node, c.stores[node][DirOf(file.name)]);
          assert Message(v, file) in ScanMessages(c, node);
        }
      }
    }
  }

  lemma ScanKeepsFaithful(c: Cluster, node: RingId)
    requires Faithful(c) && Enabled(c, Scan(node))
    ensures Faithful(c.(due := c.due - {node}, wire := c.wire + ScanMessages(c, node)))
  {
    assert StoreFaithful(c.catalog, c.stores[node]);
  }

  /** A delivery to a node that has nothing else in the file's directory stores the file. */
  lemma DeliverStores(names: iset<string>, catalog: map<string, Stored>, s: Store, file: Stored)
    requires Apart(names) && StoreFaithful(catalog, s) && FileFaithful(catalog, file) && DirOf(file.name) != ""
    requires forall n :: n in catalog ==> n in names
    ensures DirOf(file.name) in Put(s, file) && Put(s, file)[DirOf(file.name)] == file
    ensures forall d :: d in s ==> d in Put(s, file) && Put(s, file)[d] == s[d]
    ensures StoreFaithful(catalog, Put(s, file))
  {
    OccupiedBySame(names, catalog, s, file.name);
  }

  lemma DeliverKeepsFaithful(hash: Hash, names: iset<string>, c: Cluster, m: Message)
    requires Apart(names) && Faithful(c) && Within(c, names) && m in c.wire
    ensures Faithful(Apply(hash, c, Deliver(m)))
  {
    if m.to in c.stores {
      assert StoreFaithful(c.catalog, c.stores[m.to]) && FileFaithful(c.catalog, m.file);
      DeliverStores(names, c.catalog, c.stores[m.to], m.file);
    }
  }

  lemma DeliverKeepsCovered(hash: Hash, names: iset<string>, c: Cluster, m: Message, file: Stored)
    requires Apart(names) && Faithful(c) && Within(c, names) && m in c.wire && Covered(c, file)
    ensures Covered(Apply(hash, c, Deliver(m)), file)
  {
    var c' := Apply(hash, c, Deliver(m));
    var r := Replicas(c, file.fileID);
    ReplicasAlive(c, file.fileID);
    assert Replicas(c', file.fileID) == r;
    if m.to in c.stores {
      assert StoreFaithful(c.catalog, c.stores[m.to]) && FileFaithful(c.catalog, m.file);
      DeliverStores(names, c.catalog, c.stores[m.to], m.file);
    }
    forall v | v in r
      ensures Holds(c, v, file) ==> Holds(c', v, file)
      ensures m == Message(v, file) ==> Holds(c', v, file)
    {}
  }

  // ---------- every step and every run ----------

  /** Every step but a join keeps files with names that lie apart with their primary, and with every
      other replica or on the way there. */
  lemma StepKeepsDurable(hash: Hash, names: iset<string>, c: Cluster, step: Step)
    requires Apart(names) && Durable(hash, c) && Within(c, names) && Enabled(c, step) && !step.Join?
    requires step.Create? ==> step.name in names
    ensures Durable(hash, Apply(hash, c, step)) && Within(Apply(hash, c, step), names)
  {
    match step
    case Create(name, content) => CreateKeepsDurable(hash, names, c, name, content);
    case Fail(_) => FailKeepsDurable(hash, c, step);
    case Scan(node) =>
      ScanKeepsFaithful(c, node);
      forall name | name in c.catalog ensures Covered(Apply(hash, c, step), c.catalog[name]) {
        ScanKeepsCovered(c, node, c.catalog[name]);
      }
    case Deliver(m) =>
      DeliverKeepsFaithful(hash, names, c, m);
      forall name | name in c.catalog ensures Covered(Apply(hash, c, step), c.catalog[name]) {
        DeliverKeepsCovered(hash, names, c, m, c.catalog[name]);
      }
  }

  /** A run without joins that creates only files with these names. */
  ghost predicate RunOf(names: iset<string>, steps: seq<Step>) {
    forall i :: 0 <= i < |steps| ==> !steps[i].Join? && (steps[i].Create? ==> steps[i].name in names)
  }

  lemma {:induction false} RunsAreDurable(hash: Hash, names: iset<string>, from: Cluster, steps: seq<Step>)
    requires Apart(names) && Durable(hash, from) && Within(from, names) && RunOf(names, steps)
    requires Exec(hash, from, steps).Some?
    ensures Durable(hash, Exec(hash, from, steps).value) && Within(Exec(hash, from, steps).value, names)
  {
    if steps == [] {
    } else {
      var before := steps[..|steps| - 1];
      RunsAreDurable(hash, names, from, before);
      StepKeepsDurable(hash, names, Exec(hash, from, before).value, steps[|steps| - 1]);
    }
  }

  // ---------- main results ----------

  ghost predicate AllHeld(c: Cluster) {
    forall name :: name in c.catalog ==> HeldByAllReplicas(c, c.catalog[name])
  }

  /** Durability over whole runs without joins, of files whose names lie apart: whenever a round is
      over, the first min(3, alive) successors of every file created hold it, byte for byte. */
  lemma FilesSurviveFailures(hash: Hash, names: iset<string>, nodes: set<RingId>, steps: seq<Step>)
    requires Apart(names) && RunOf(names, steps)
    requires Exec(hash, Start(nodes), steps).Some? && Quiet(Exec(hash, Start(nodes), steps).value)
    ensures var c := Exec(hash, Start(nodes), steps).value;
      && AllHeld(c)
      && forall fileID: RingId :: |Replicas(c, fileID)| == if |c.alive| < 3 then |c.alive| else 3
  {
    RunsAreDurable(hash, names, Start(nodes), steps);
    var c := Exec(hash, Start(nodes), steps).value;
    forall name | name in c.catalog ensures HeldByAllReplicas(c, c.catalog[name]) {
      assert Covered(c, c.catalog[name]);
    }
    forall fileID: RingId ensures |Replicas(c, fileID)| == if |c.alive| < 3 then |c.alive| else 3 {
      ReplicasAlive(c, fileID);
    }
  }

  /** In the middle of a round too, the node that now comes first on the ring has the file. */
  lemma PrimaryAlwaysHolds(hash: Hash, names: iset<string>, nodes: set<RingId>, steps: seq<Step>, name: string)
    requires Apart(names) && RunOf(names, steps) && Exec(hash, Start(nodes), steps).Some?
    requires name in Exec(hash, Start(nodes), steps).value.catalog
    requires Exec(hash, Start(nodes), steps).value.alive != {}
    ensures var c := Exec(hash, Start(nodes), steps).value;
      Holds(c, Successors(c.catalog[name].fileID, c.alive, NUM_REPLICAS)[0], c.catalog[name])
  {
    RunsAreDurable(hash, names, Start(nodes), steps);
    var c := Exec(hash, Start(nodes), steps).value;
    assert Covered(c, c.catalog[name]);
    ReplicasAlive(c, c.catalog[name].fileID);
  }

  // ---------- a round after any change of membership ----------

  predicate Repairs(steps: seq<Step>) {
    forall i :: 0 <= i < |steps| ==> steps[i].Scan? || steps[i].Deliver?
  }

  lemma RepairStepKeepsFaithful(hash: Hash, names: iset<string>, c: Cluster, step: Step)
    requires Apart(names) && Faithful(c) && Within(c, names) && Enabled(c, step) && (step.Scan? || step.Deliver?)
    ensures Faithful(Apply(hash, c, step)) && Within(Apply(hash, c, step), names)
  {
    if step.Scan? {
      ScanKeepsFaithful(c, step.node);
    } else {
      DeliverKeepsFaithful(hash, names, c, step.message);
    }
  }

  lemma RepairStepKeepsCovered(hash: Hash, names: iset<string>, c: Cluster, step: Step, file: Stored)
    requires Apart(names) && Faithful(c) && Within(c, names) && Enabled(c, step) && (step.Scan? || step.Deliver?)
    requires FileFaithful(c.catalog, file) && Covered(c, file)
    ensures Covered(Apply(hash, c, step), file)
  {
    if step.Scan? {
      ScanKeepsCovered(c, step.node, file);
    } else {
      DeliverKeepsCovered(hash, names, c, step.message, file);
    }
  }

  lemma RepairStepKeepsUncovered(hash: Hash, c: Cluster, step: Step, file: Stored)
    requires Faithful(c) && Enabled(c, step) && (step.Scan? || step.Deliver?) && Uncovered(c, file)
    ensures Uncovered(Apply(hash, c, step), file)
  {
    var c' := Apply(hash, c, step);
    assert Replicas(c', file.fileID) == Replicas(c, file.fileID);
  }

  lemma {:induction false} RepairRun(hash: Hash, names: iset<string>, from: Cluster, steps: seq<Step>, file: Stored)
    requires Apart(names) && Faithful(from) && Within(from, names) && FileFaithful(from.catalog, file)
    requires Repairs(steps) && Exec(hash, from, steps).Some?
    ensures var c := Exec(hash, from, steps).value;
      && Faithful(c) && Within(c, names) && c.alive == from.alive && c.catalog == from.catalog
      && (Covered(from, file) ==> Covered(c, file)) && (Uncovered(from, file) ==> Uncovered(c, file))
  {
    if steps == [] {
    } else {
      var before := steps[..|steps| - 1];
      var last := steps[|steps| - 1];
      assert last.Scan? || last.Deliver?;
      RepairRun(hash, names, from, before, file);
      var c := Exec(hash, from, before).value;
      RepairStepKeepsFaithful(hash, names, c, last);
      if Covered(c, file) { RepairStepKeepsCovered(hash, names, c, last, file); }
      if Uncovered(c, file) { RepairStepKeepsUncovered(hash, c, last, file); }
    }
  }

  /** Exactly when a round of scans repairs a file after any change of membership, joins included, if
      the names lie apart: if and only if the node that is now first on the ring held the file. */
  lemma RoundRepairsIffPrimaryHeld(hash: Hash, names: iset<string>, from: Cluster, steps: seq<Step>, name: string)
    requires Apart(names) && Faithful(from) && Within(from, names) && name in from.catalog && from.alive != {}
    requires from.due == from.alive && from.wire == {}
    requires Repairs(steps) && Exec(hash, from, steps).Some? && Quiet(Exec(hash, from, steps).value)
    ensures HeldByAllReplicas(Exec(hash, from, steps).value, from.catalog[name])
       <==> Holds(from, Successors(from.catalog[name].fileID, from.alive, NUM_REPLICAS)[0], from.catalog[name])
  {
    var file := from.catalog[name];
    var r := Replicas(from, file.fileID);
    ReplicasAlive(from, file.fileID);
    RepairRun(hash, names, from, steps, file);
    var c := Exec(hash, from, steps).value;
    assert Replicas(c, file.fileID) == r;
    if Holds(from, r[0], file) {
      assert Covered(from, file);
    } else {
      assert Uncovered(from, file);
      assert r[0] in r && !Holds(c, r[0], file);
    }
  }

  /** A newcomer that comes first on the ring has nothing to scan: the state after its join
      already fails the condition above. */
  lemma NewcomerPrimaryHoldsNothing(hash: Hash, c: Cluster, added: set<RingId>, name: string)
    requires Faithful(c) && Quiet(c) && added !! c.alive && name in c.catalog
    requires Successors(c.catalog[name].fileID, c.alive + added, NUM_REPLICAS) != []
    requires Successors(c.catalog[name].fileID, c.alive + added, NUM_REPLICAS)[0] in added
    ensures var j := Apply(hash, c, Join(added));
      && Faithful(j) && j.due == j.alive && j.wire == {}
      && !Holds(j, Successors(c.catalog[name].fileID, j.alive, NUM_REPLICAS)[0], c.catalog[name])
  {}

  /** A join keeps what the nodes have. */
  lemma JoinKeeps(hash: Hash, names: iset<string>, c: Cluster, added: set<RingId>)
    requires Durable(hash, c) && Within(c, names) && Quiet(c) && added !! c.alive
    ensures var j := Apply(hash, c, Join(added));
      && Faithful(j) && Within(j, names) && j.alive == c.alive + added && j.catalog == c.catalog && j.due == j.alive && j.wire == {}
      && forall v, file :: Holds(c, v, file) ==> Holds(j, v, file)
  {}

  /** So after a join a round of scans completes the replicas of a file, if the names lie apart, exactly if
      the first node on the ring is not a newcomer. */
  lemma JoinRepairsIff(hash: Hash, names: iset<string>, c: Cluster, added: set<RingId>, steps: seq<Step>, name: string)
    requires Apart(names) && Durable(hash, c) && Within(c, names) && Quiet(c) && added !! c.alive && c.alive != {}
    requires name in c.catalog && Repairs(steps)
    requires Exec(hash, Apply(hash, c, Join(added)), steps).Some? && Quiet(Exec(hash, Apply(hash, c, Join(added)), steps).value)
    ensures HeldByAllReplicas(Exec(hash, Apply(hash, c, Join(added)), steps).value, c.catalog[name])
       <==> (Successors(c.catalog[name].fileID, c.alive + added, NUM_REPLICAS) != []
             && Successors(c.catalog[name].fileID, c.alive + added, NUM_REPLICAS)[0] !in added)
  {
    var j := Apply(hash, c, Join(added));
    var file := c.catalog[name];
    var first := Successors(file.fileID, c.alive + added, NUM_REPLICAS);
    JoinKeeps(hash, names, c, added);
    RoundRepairsIffPrimaryHeld(hash, names, j, steps, name);
    ReplicasAlive(j, file.fileID);
    if first[0] in added {
      NewcomerPrimaryHoldsNothing(hash, c, added, name);
    } else {
      OldFirstHolds(hash, c, added, file);
    }
  }

  lemma OldFirstHolds(hash: Hash, c: Cluster, added: set<RingId>, file: Stored)
    requires Durable(hash, c) && Quiet(c) && added !! c.alive && c.alive != {} && FileFaithful(c.catalog, file)
    requires var first := Successors(file.fileID, c.alive + added, NUM_REPLICAS); first != [] && first[0] !in added
    ensures Holds(c, Successors(file.fileID, c.alive + added, NUM_REPLICAS)[0], file)
  {
    var first := Successors(file.fileID, c.alive + added, NUM_REPLICAS);
    AdditionOnlyIntroducesAdded(file.fileID, c.alive, added, NUM_REPLICAS, first[0]);
    assert Covered(c, file);
  }
}
