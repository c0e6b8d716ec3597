/** Exactly which file names are safe: what happens to files whose names share a directory, or whose
    directory is nested. */
module NameClash {
  import opened Durability
  import opened FileNames
  import opened Maybe
  import opened Ring

  /** Every finished round of every run with these names leaves every file created with all its
      replicas. */
  ghost predicate AlwaysSurvive(names: iset<string>) {
    forall hash: Hash, nodes: set<RingId>, steps: seq<Step> ::
      RunOf(names, steps) ==> !LosesReplica(hash, nodes, steps)
  }

  ghost predicate LosesReplica(hash: Hash, nodes: set<RingId>, steps: seq<Step>) {
    && Exec(hash, Start(nodes), steps).Some? && Quiet(Exec(hash, Start(nodes), steps).value)
    && !AllHeld(Exec(hash, Start(nodes), steps).value)
  }

  // ---------- runs put together ----------

  lemma {:induction false} ExecAppend(hash: Hash, from: Cluster, a: seq<Step>, b: seq<Step>)
    requires Exec(hash, from, a).Some?
    ensures Exec(hash, from, a + b) == Exec(hash, Exec(hash, from, a).value, b)
  {
    if b == [] {
      assert a + b == a;
    } else {
      assert (a + b)[..|a + b| - 1] == a + b[..|b| - 1];
      ExecAppend(hash, from, a, b[..|b| - 1]);
    }
  }

  lemma ExecOne(hash: Hash, from: Cluster, step: Step)
    requires Enabled(from, step)
    ensures Exec(hash, from, [step]) == Some(Apply(hash, from, step))
  {
    assert [step][..0] == [];
  }

  /** Every round can be finished: the scans that are due run, then the messages arrive. */
  lemma FinishRound(hash: Hash, c: Cluster) returns (steps: seq<Step>)
    requires c.due <= c.stores.Keys
    ensures Repairs(steps) && Exec(hash, c, steps).Some? && Quiet(Exec(hash, c, steps).value)
    decreases |c.due|, |c.wire|
  {
    if c.due != {} {
      var node :| node in c.due;
      var rest := FinishRound(hash, Apply(hash, c, Scan(node)));
      ExecOne(hash, c, Scan(node));
      ExecAppend(hash, c, [Scan(node)], rest);
      steps := [Scan(node)] + rest;
    } else if c.wire != {} {
      var m :| m in c.wire;
      var rest := FinishRound(hash, Apply(hash, c, Deliver(m)));
      ExecOne(hash, c, Deliver(m));
      ExecAppend(hash, c, [Deliver(m)], rest);
      steps := [Deliver(m)] + rest;
    } else {
      steps := [];
    }
  }

  // ---------- what scans and deliveries leave as it is ----------

  ghost predicate Keyed(c: Cluster) {
    forall v, d :: v in c.stores && d in c.stores[v] ==> DirOf(c.stores[v][d].name) == d
  }

  /** Nobody is about to receive a file with a nested directory. */
  ghost predicate OnlyFlatMail(c: Cluster) {
    forall m :: m in c.wire ==> '/' !in DirOf(m.file.name)
  }

  predicate Vacant(c: Cluster, v: RingId, d: string) {
    v in c.stores && d !in c.stores[v]
  }

  predicate Taken(c: Cluster, v: RingId, file: Stored) {
    Holds(c, v, file)
  }

  lemma RepairStepLeaves(hash: Hash, c: Cluster, step: Step, v: RingId, d: string, file: Stored)
    requires Enabled(c, step) && (step.Scan? || step.Deliver?)
    ensures var c' := Apply(hash, c, step);
      && c'.alive == c.alive && c'.catalog == c.catalog
      && (Taken(c, v, file) ==> Taken(c', v, file))
      && (Keyed(c) && OnlyFlatMail(c) ==> Keyed(c') && OnlyFlatMail(c'))
      && (Keyed(c) && OnlyFlatMail(c) && '/' in d && Vacant(c, v, d) ==> Vacant(c', v, d))
  {}

  lemma {:induction false} RepairLeaves(hash: Hash, c: Cluster, steps: seq<Step>, v: RingId, d: string, file: Stored)
    requires Repairs(steps) && Exec(hash, c, steps).Some?
    ensures var c' := Exec(hash, c, steps).value;
      && c'.alive == c.alive && c'.catalog == c.catalog
      && (Taken(c, v, file) ==> Taken(c', v, file))
      && (Keyed(c) && OnlyFlatMail(c) ==> Keyed(c') && OnlyFlatMail(c'))
      && (Keyed(c) && OnlyFlatMail(c) && '/' in d && Vacant(c, v, d) ==> Vacant(c', v, d))
  {
    if steps == [] {
    } else {
      var before := steps[..|steps| - 1];
      var last := steps[|steps| - 1];
      assert last.Scan? || last.Deliver?;
      RepairLeaves(hash, c, before, v, d, file);
      RepairStepLeaves(hash, Exec(hash, c, before).value, last, v, d, file);
    }
  }

  // ---------- a create on empty nodes ----------

  lemma {:induction false} EmptyNodesAccept(stores: map<RingId, Store>, chain: seq<RingId>, d: string)
    requires d != "" && forall v :: v in chain ==> v in stores && stores[v] == map[]
    ensures Accepting(stores, chain, d) == |chain|
  {
    if chain == [] {
    } else {
      assert chain[0] in chain && forall v :: v in chain[1..] ==> v in chain;
      EmptyNodesAccept(stores, chain[1..], d);
    }
  }

  /** A create whose chain has not stored anything yet succeeds. */
  lemma CreateOnEmpty(c: Cluster, file: Stored, chain: seq<RingId>)
    requires chain == Replicas(c, file.fileID) && chain != [] && DirOf(file.name) != ""
    requires forall v :: v in chain ==> v in c.stores && c.stores[v] == map[]
    ensures var c' := CreateOn(c, file);
      && c'.alive == c.alive && c'.due == c.due && c'.wire == c.wire && c'.stores.Keys == c.stores.Keys
      && c'.catalog == c.catalog[file.name := file]
      && forall v :: v in c.stores ==> c'.stores[v] == if v in chain then map[DirOf(file.name) := file] else c.stores[v]
  {
    EmptyNodesAccept(c.stores, chain, DirOf(file.name));
    CreatedEverywhere(c, file);
  }

  lemma FirstThree(c: Cluster, h: RingId, walk: seq<RingId>)
    requires ByDistance(h, walk) && Elements(walk) == c.alive && |walk| >= 3
    ensures Replicas(c, h) == walk[..3]
  {
    WalkIsSuccessors(h, walk, NUM_REPLICAS);
  }

  // ---------- runs that lose a replica ----------

  ghost predicate Loses(names: iset<string>) {
    exists hash: Hash, nodes: set<RingId>, steps: seq<Step> :: RunOf(names, steps) && LosesReplica(hash, nodes, steps)
  }

  lemma MoreNamesLose(some: iset<string>, names: iset<string>)
    requires some <= names && Loses(some)
    ensures Loses(names)
  {
    var hash: Hash, nodes: set<RingId>, steps: seq<Step> :| RunOf(some, steps) && LosesReplica(hash, nodes, steps);
    assert RunOf(names, steps);
  }

  /** The node will not get the file, however the round goes on: it has another file in the directory,
      or the directory is nested and nobody sends what is in it. */
  ghost predicate Shut(c: Cluster, v: RingId, file: Stored, other: Stored) {
    || (Taken(c, v, other) && other != file && DirOf(other.name) == DirOf(file.name))
    || (Keyed(c) && OnlyFlatMail(c) && '/' in DirOf(file.name) && Vacant(c, v, DirOf(file.name)))
  }

  lemma ShutMeansMissing(c: Cluster, v: RingId, file: Stored, other: Stored)
    requires Shut(c, v, file, other) && v in Replicas(c, file.fileID) && FileFaithful(c.catalog, file)
    ensures !AllHeld(c)
  {
    assert !Holds(c, v, file);
    assert !HeldByAllReplicas(c, c.catalog[file.name]);
  }

  /** A file is in the catalog, and one of its replicas is shut. */
  ghost predicate Doomed(c: Cluster, v: RingId, file: Stored, other: Stored) {
    c.due <= c.stores.Keys && FileFaithful(c.catalog, file) && v in Replicas(c, file.fileID) && Shut(c, v, file, other)
  }

  /** A replica that is shut when a round begins lacks the file when the round is over. */
  lemma ShutLoses(hash: Hash, names: iset<string>, nodes: set<RingId>, start: seq<Step>, v: RingId, file: Stored, other: Stored)
    requires RunOf(names, start) && Exec(hash, Start(nodes), start).Some?
    requires Doomed(Exec(hash, Start(nodes), start).value, v, file, other)
    ensures Loses(names)
  {
    var c := Exec(hash, Start(nodes), start).value;
    var rest := FinishRound(hash, c);
    RepairLeaves(hash, c, rest, v, DirOf(file.name), other);
    ExecAppend(hash, Start(nodes), start, rest);
    var c' := Exec(hash, c, rest).value;
    assert Replicas(c', file.fileID) == Replicas(c, file.fileID);
    ShutMeansMissing(c', v, file, other);
    assert RunOf(names, start + rest);
    assert LosesReplica(hash, nodes, start + rest);
  }

  lemma ExecTwo(hash: Hash, from: Cluster, a: Step, b: Step)
    requires Enabled(from, a) && Enabled(Apply(hash, from, a), b)
    ensures Exec(hash, from, [a, b]) == Some(Apply(hash, Apply(hash, from, a), b))
  {
    ExecOne(hash, from, a);
    ExecOne(hash, Apply(hash, from, a), b);
    ExecAppend(hash, from, [a], [b]);
    assert [a] + [b] == [a, b];
  }

  lemma ExecThree(hash: Hash, from: Cluster, a: Step, b: Step, c: Step)
    requires Enabled(from, a) && Enabled(Apply(hash, from, a), b) && Enabled(Apply(hash, Apply(hash, from, a), b), c)
    ensures Exec(hash, from, [a, b, c]) == Some(Apply(hash, Apply(hash, Apply(hash, from, a), b), c))
  {
    ExecTwo(hash, from, a, b);
    ExecOne(hash, Apply(hash, Apply(hash, from, a), b), c);
    ExecAppend(hash, from, [a, b], [c]);
    assert [a, b] + [c] == [a, b, c];
  }

  /** A failure among the nodes of a quiet cluster. */
  lemma FailLeaves(hash: Hash, c: Cluster, v: RingId)
    requires Quiet(c) && v in c.alive && c.alive != {v} && c.stores.Keys == c.alive
    ensures Enabled(c, Fail({v}))
    ensures var c' := Apply(hash, c, Fail({v}));
      && c'.alive == c.alive - {v} && c'.catalog == c.catalog && c'.wire == {} && c'.due <= c'.stores.Keys
      && (forall u :: u in c'.stores <==> u in c.stores && u != v)
      && forall u :: u in c'.stores ==> c'.stores[u] == c.stores[u]
  {}

  /** Without the nearest node the walk starts at the next one. */
  lemma NextWalk(h: RingId, walk: seq<RingId>)
    requires ByDistance(h, walk) && walk != []
    ensures ByDistance(h, walk[1..]) && Elements(walk[1..]) == Elements(walk) - {walk[0]}
  {
    TailByDistance(h, walk);
    FirstIsNearest(h, walk);
  }

  /** On empty nodes a file goes to the first three and leaves the others empty. */
  lemma FirstFile(c: Cluster, walk: seq<RingId>, file: Stored)
    requires |walk| >= 3 && ByDistance(file.fileID, walk) && c == Start(Elements(walk)) && DirOf(file.name) != ""
    ensures var c' := CreateOn(c, file);
      && Quiet(c') && c'.alive == Elements(walk) == c'.stores.Keys
      && c'.catalog == map[file.name := file]
      && forall v :: v in c'.stores ==> c'.stores[v] == if v in walk[..3] then map[DirOf(file.name) := file] else map[]
  {
    FirstThree(c, file.fileID, walk);
    CreateOnEmpty(c, file, walk[..3]);
  }

  // ---------- a nested directory ----------

  lemma OnlyThisFile(c: Cluster, file: Stored, v: RingId, d: string)
    requires c.wire == {} && v in c.stores && c.stores[v] == map[] && d == DirOf(file.name) && '/' in d
    requires forall u :: u in c.stores ==> c.stores[u] == map[] || c.stores[u] == map[d := file]
    ensures Shut(c, v, file, file)
  {}

  /** Every node has this file only or nothing, and one has nothing. */
  ghost predicate OnlyFile(c: Cluster, nodes: set<RingId>, file: Stored, v: RingId) {
    && Quiet(c) && c.alive == nodes == c.stores.Keys && FileFaithful(c.catalog, file)
    && v in c.stores && c.stores[v] == map[]
    && forall u :: u in c.stores ==> c.stores[u] == map[] || c.stores[u] == map[DirOf(file.name) := file]
  }

  lemma FourthStaysEmpty(hash: Hash, c: Cluster, walk: seq<RingId>, file: Stored)
    requires |walk| >= 4 && ByDistance(file.fileID, walk) && '/' in DirOf(file.name)
    requires OnlyFile(c, Elements(walk), file, walk[3])
    ensures Enabled(c, Fail({walk[0]})) && Doomed(Apply(hash, c, Fail({walk[0]})), walk[3], file, file)
  {
    assert walk[0] in Elements(walk) && Distance(file.fileID, walk[0]) < Distance(file.fileID, walk[3]);
    FailLeaves(hash, c, walk[0]);
    NextWalk(file.fileID, walk);
    var c' := Apply(hash, c, Fail({walk[0]}));
    FirstThree(c', file.fileID, walk[1..]);
    assert Replicas(c', file.fileID)[2] == walk[3];
    OnlyThisFile(c', file, walk[3], DirOf(file.name));
  }

  lemma FourthIsEmpty(walk: seq<RingId>, file: Stored)
    requires |walk| >= 4 && ByDistance(file.fileID, walk) && DirOf(file.name) != ""
    ensures OnlyFile(CreateOn(Start(Elements(walk)), file), Elements(walk), file, walk[3])
  {
    FirstFile(Start(Elements(walk)), walk, file);
    assert walk[3] in Elements(walk);
    assert forall i :: 0 <= i < 3 ==> Distance(file.fileID, walk[i]) < Distance(file.fileID, walk[3]);
  }

  function NestedSteps(name: string, gone: RingId): seq<Step> {
    [Create(name, ""), Fail({gone})]
  }

  lemma NestedDooms(hash: Hash, walk: seq<RingId>, file: Stored)
    requires |walk| >= 4 && ByDistance(file.fileID, walk) && '/' in DirOf(file.name)
    requires file == Stored(file.name, hash(file.name), "")
    ensures Exec(hash, Start(Elements(walk)), NestedSteps(file.name, walk[0])).Some?
    ensures Doomed(Exec(hash, Start(Elements(walk)), NestedSteps(file.name, walk[0])).value, walk[3], file, file)
  {
    var c0 := Start(Elements(walk));
    var c := CreateOn(c0, file);
    FourthIsEmpty(walk, file);
    FourthStaysEmpty(hash, c, walk, file);
    assert c == Apply(hash, c0, Create(file.name, ""));
    ExecTwo(hash, c0, Create(file.name, ""), Fail({walk[0]}));
  }

  lemma NestedLoses(hash: Hash, walk: seq<RingId>, name: string)
    requires |walk| >= 4 && ByDistance(hash(name), walk) && '/' in DirOf(name)
    ensures Loses(iset{name})
  {
    var file := Stored(name, hash(name), "");
    NestedDooms(hash, walk, file);
    ShutLoses(hash, iset{name}, Elements(walk), NestedSteps(name, walk[0]), walk[3], file, file);
  }

  /** The scan does not look into nested directories: after a failure the node that joins the replicas
      of such a file never gets it. */
  lemma NestedIsLost(name: string)
    requires '/' in DirOf(name)
    ensures Loses(iset{name})
  {
    NestedLoses(_ => 5, [10, 20, 30, 40], name);
  }

  // ---------- a shared directory ----------

  /** One file is on a node that is not among the first three on the walk of another, and those are
      empty. */
  ghost predicate OneHalf(c: Cluster, walk: seq<RingId>, u: RingId, first: Stored) {
    && Quiet(c) && c.alive == Elements(walk) == c.stores.Keys && Taken(c, u, first)
    && forall v :: v in FirstOf(walk, 3) ==> v != u && v in c.stores && c.stores[v] == map[]
  }

  /** Both files are there. */
  ghost predicate BothHalves(c: Cluster, walk: seq<RingId>, u: RingId, first: Stored, second: Stored) {
    Quiet(c) && c.alive == Elements(walk) == c.stores.Keys && Taken(c, u, first) && FileFaithful(c.catalog, second)
  }

  lemma SecondFile(c: Cluster, walk: seq<RingId>, u: RingId, first: Stored, second: Stored)
    requires |walk| >= 3 && ByDistance(second.fileID, walk) && DirOf(second.name) != "" && OneHalf(c, walk, u, first)
    ensures BothHalves(CreateOn(c, second), walk, u, first, second)
  {
    FirstThree(c, second.fileID, walk);
    CreateOnEmpty(c, second, FirstOf(walk, 3));
    OthersKeep(c, CreateOn(c, second), FirstOf(walk, 3), u, first);
  }

  lemma OthersKeep(c: Cluster, c': Cluster, chain: seq<RingId>, u: RingId, file: Stored)
    requires Taken(c, u, file) && c'.stores.Keys == c.stores.Keys && u !in chain
    requires forall v :: v in c.stores && v !in chain ==> c'.stores[v] == c.stores[v]
    ensures Taken(c', u, file)
  {}

  lemma FourthStaysTaken(hash: Hash, c: Cluster, walk: seq<RingId>, first: Stored, second: Stored)
    requires |walk| >= 4 && ByDistance(second.fileID, walk)
    requires first.name != second.name && DirOf(first.name) == DirOf(second.name)
    requires BothHalves(c, walk, walk[3], first, second)
    ensures Enabled(c, Fail({walk[0]})) && Doomed(Apply(hash, c, Fail({walk[0]})), walk[3], second, first)
  {
    assert walk[0] in Elements(walk) && Distance(second.fileID, walk[0]) < Distance(second.fileID, walk[3]);
    FailLeaves(hash, c, walk[0]);
    NextWalk(second.fileID, walk);
    var c' := Apply(hash, c, Fail({walk[0]}));
    FirstThree(c', second.fileID, walk[1..]);
    assert Replicas(c', second.fileID)[2] == walk[3];
  }

  /** Six nodes as they are met from the fourth. */
  lemma FromTheFourth(ids: seq<RingId>)
    requires |ids| == 6 && Ascending(ids)
    ensures ByDistance(ids[0], ids)
    ensures var walk := Rotation(ids, 3);
      && ByDistance(ids[3], walk) && Elements(walk) == Elements(ids) && walk[0] == ids[3] && walk[3] == ids[0]
  {
    RotationByDistance(ids[3], ids, 3);
    RotationElements(ids, 3);
  }

  lemma OtherHalf(ids: seq<RingId>, v: RingId)
    requires |ids| == 6 && Ascending(ids) && v in FirstOf(Rotation(ids, 3), 3)
    ensures v in Elements(ids) && v != ids[0] && v !in ids[..3]
  {
    assert FirstOf(Rotation(ids, 3), 3) == ids[3..];
  }

  lemma FirstHalf(ids: seq<RingId>, first: Stored)
    requires |ids| == 6 && Ascending(ids) && first.fileID == ids[0] && DirOf(first.name) != ""
    ensures OneHalf(CreateOn(Start(Elements(ids)), first), Rotation(ids, 3), ids[0], first)
  {
    FromTheFourth(ids);
    FirstFile(Start(Elements(ids)), ids, first);
    var c := CreateOn(Start(Elements(ids)), first);
    forall v | v in FirstOf(Rotation(ids, 3), 3) ensures v != ids[0] && v in c.stores && c.stores[v] == map[] {
      OtherHalf(ids, v);
    }
    FirstOfThem(ids, c, first);
  }

  lemma FirstOfThem(ids: seq<RingId>, c: Cluster, first: Stored)
    requires |ids| >= 3 && c.stores.Keys == Elements(ids)
    requires forall v :: v in c.stores && v in ids[..3] ==> c.stores[v] == map[DirOf(first.name) := first]
    ensures Taken(c, ids[0], first)
  {
    assert ids[..3][0] == ids[0] && ids[0] in Elements(ids);
  }

  function SharedSteps(a: string, b: string, gone: RingId): seq<Step> {
    [Create(a, ""), Create(b, ""), Fail({gone})]
  }

  lemma SharedDooms(hash: Hash, ids: seq<RingId>, first: Stored, second: Stored)
    requires |ids| == 6 && Ascending(ids)
    requires first == Stored(first.name, ids[0], "") && second == Stored(second.name, ids[3], "")
    requires hash(first.name) == ids[0] && hash(second.name) == ids[3]
    requires first.name != second.name && DirOf(first.name) == DirOf(second.name) != ""
    ensures Exec(hash, Start(Elements(ids)), SharedSteps(first.name, second.name, ids[3])).Some?
    ensures Doomed(Exec(hash, Start(Elements(ids)), SharedSteps(first.name, second.name, ids[3])).value, ids[0], second, first)
  {
    var c0 := Start(Elements(ids));
    var walk := Rotation(ids, 3);
    FromTheFourth(ids);
    FirstHalf(ids, first);
    var c := CreateOn(c0, first);
    SecondFile(c, walk, ids[0], first, second);
    var c' := CreateOn(c, second);
    FourthStaysTaken(hash, c', walk, first, second);
    assert c == Apply(hash, c0, Create(first.name, ""));
    assert c' == Apply(hash, c, Create(second.name, ""));
    ExecThree(hash, c0, Create(first.name, ""), Create(second.name, ""), Fail({ids[3]}));
  }

  lemma SharedLoses(hash: Hash, ids: seq<RingId>, a: string, b: string)
    requires |ids| == 6 && Ascending(ids) && hash(a) == ids[0] && hash(b) == ids[3]
    requires a != b && DirOf(a) == DirOf(b) != ""
    ensures Loses(iset{a, b})
  {
    var first, second := Stored(a, ids[0], ""), Stored(b, ids[3], "");
    SharedDooms(hash, ids, first, second);
    ShutLoses(hash, iset{a, b}, Elements(ids), SharedSteps(a, b, ids[3]), ids[0], second, first);
  }

  /** Two names with one stem: both creates succeed on different nodes; after a failure the second file
      is refused by a node that has the first in the shared directory. */
  lemma SharedIsRefused(a: string, b: string)
    requires a != b && DirOf(a) == DirOf(b) != ""
    ensures Loses(iset{a, b})
  {
    SharedLoses((name: string) => if name == a then 10 else 40, [10, 20, 30, 40, 50, 60], a, b);
  }

  // ---------- exactly the safe names ----------

  lemma ApartNeverLose(names: iset<string>, hash: Hash, nodes: set<RingId>, steps: seq<Step>)
    requires Apart(names) && RunOf(names, steps)
    ensures !LosesReplica(hash, nodes, steps)
  {
    if Exec(hash, Start(nodes), steps).Some? && Quiet(Exec(hash, Start(nodes), steps).value) {
      FilesSurviveFailures(hash, names, nodes, steps);
    }
  }

  lemma NestedLose(names: iset<string>, a: string)
    requires a in names && '/' in DirOf(a)
    ensures Loses(names)
  {
    NestedIsLost(a);
    MoreNamesLose(iset{a}, names);
  }

  lemma SharedLose(names: iset<string>, a: string, b: string)
    requires a in names && b in names && a != b && DirOf(a) == DirOf(b) != ""
    ensures Loses(names)
  {
    SharedIsRefused(a, b);
    MoreNamesLose(iset{a, b}, names);
  }

  lemma OthersLose(names: iset<string>)
    requires !Apart(names)
    ensures Loses(names)
  {
    var a :| a in names && DirOf(a) != ""
      && !('/' !in DirOf(a) && forall b :: b in names && b != a ==> DirOf(b) != DirOf(a));
    if '/' in DirOf(a) {
      NestedLose(names, a);
    } else {
      var b :| b in names && b != a && DirOf(b) == DirOf(a);
      SharedLose(names, a, b);
    }
  }

  /** The files of a set of names survive all runs if and only if every name that can be stored at all
      has a directory of its own on the top level. */
  lemma AlwaysSurviveIffApart(names: iset<string>)
    ensures AlwaysSurvive(names) <==> Apart(names)
  {
    if Apart(names) {
      forall hash: Hash, nodes: set<RingId>, steps: seq<Step> | RunOf(names, steps)
        ensures !LosesReplica(hash, nodes, steps)
      {
        ApartNeverLose(names, hash, nodes, steps);
      }
    } else {
      OthersLose(names);
    }
  }
}
