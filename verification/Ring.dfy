/** The consistent-hash ring: which nodes hold the replicas of a file. */
module Ring {
  import opened MemberInfo

  const RING_SIZE: nat := 0x1_0000_0000_0000_0000
  const NUM_REPLICAS: nat := 3

  /** A position on the ring: a 64-bit hash. */
  type RingId = x: nat | x < RING_SIZE

  // ---------- the reference: walk clockwise from the file's hash ----------

  /** Clockwise distance from `h` to `x`. */
  function Distance(h: RingId, x: RingId): nat {
    if x >= h then x - h else x + RING_SIZE - h
  }

  /** That many steps clockwise from `h` lead to `x`, and no fewer than a full round. */
  lemma DistanceIsClockwise(h: RingId, x: RingId)
    ensures Distance(h, x) < RING_SIZE
    ensures h + Distance(h, x) == x || h + Distance(h, x) == x + RING_SIZE
  {}

  ghost predicate IsNearest(h: RingId, nodes: set<RingId>, m: RingId) {
    m in nodes && forall x :: x in nodes ==> Distance(h, m) <= Distance(h, x)
  }

  lemma {:induction false} NearestExists(h: RingId, nodes: set<RingId>)
    requires nodes != {}
    ensures exists m :: IsNearest(h, nodes, m)
    decreases nodes
  {
    var x :| x in nodes;
    if nodes == {x} {
      assert IsNearest(h, nodes, x);
    } else {
      assert x !in nodes - {x};
      NearestExists(h, nodes - {x});
      var m :| IsNearest(h, nodes - {x}, m);
      if Distance(h, m) <= Distance(h, x) {
        assert IsNearest(h, nodes, m);
      } else {
        assert IsNearest(h, nodes, x);
      }
    }
  }

  ghost function Nearest(h: RingId, nodes: set<RingId>): RingId
    requires nodes != {}
  {
    NearestExists(h, nodes);
    var m :| IsNearest(h, nodes, m);
    m
  }

  lemma NearestIsNearest(h: RingId, nodes: set<RingId>)
    requires nodes != {}
    ensures IsNearest(h, nodes, Nearest(h, nodes))
  {
    NearestExists(h, nodes);
  }

  lemma NearestIsUnique(h: RingId, nodes: set<RingId>, m: RingId)
    requires IsNearest(h, nodes, m)
    ensures Nearest(h, nodes) == m
  {
    NearestIsNearest(h, nodes);
    assert Distance(h, Nearest(h, nodes)) == Distance(h, m);
  }

  /** The first `n` nodes met on a clockwise walk that starts at `h`. */
  ghost function Successors(h: RingId, nodes: set<RingId>, n: nat): seq<RingId>
    decreases n
  {
    if n == 0 || nodes == {} then []
    else
      var m := Nearest(h, nodes);
      [m] + Successors(h, nodes - {m}, n - 1)
  }

  lemma {:induction false} SuccessorsWithin(h: RingId, nodes: set<RingId>, n: nat)
    ensures |Successors(h, nodes, n)| == if n <= |nodes| then n else |nodes|
    ensures forall x :: x in Successors(h, nodes, n) ==> x in nodes
    decreases n
  {
    if n == 0 || nodes == {} {
    } else {
      NearestIsNearest(h, nodes);
      SuccessorsWithin(h, nodes - {Nearest(h, nodes)}, n - 1);
    }
  }

  lemma {:induction false} SuccessorsDistinct(h: RingId, nodes: set<RingId>, n: nat)
    ensures forall i, j :: 0 <= i < j < |Successors(h, nodes, n)| ==> Successors(h, nodes, n)[i] != Successors(h, nodes, n)[j]
    decreases n
  {
    if n == 0 || nodes == {} {
    } else {
      NearestIsNearest(h, nodes);
      SuccessorsWithin(h, nodes - {Nearest(h, nodes)}, n - 1);
      SuccessorsDistinct(h, nodes - {Nearest(h, nodes)}, n - 1);
    }
  }

  /** A node that is left out has all `n` successors before it. */
  lemma {:induction false} LeftOutIsFarther(h: RingId, nodes: set<RingId>, n: nat, x: RingId)
    requires x in nodes && x !in Successors(h, nodes, n)
    ensures |Successors(h, nodes, n)| == n
    ensures forall y :: y in Successors(h, nodes, n) ==> Distance(h, y) <= Distance(h, x)
  {
    if n == 0 {
    } else {
      NearestIsNearest(h, nodes);
      var m := Nearest(h, nodes);
      LeftOutIsFarther(h, nodes - {m}, n - 1, x);
    }
  }

  lemma {:induction false} SuccessorsCoverSmallRing(h: RingId, nodes: set<RingId>, n: nat, x: RingId)
    requires |nodes| <= n && x in nodes
    ensures x in Successors(h, nodes, n)
    decreases n
  {
    var m := Nearest(h, nodes);
    NearestIsNearest(h, nodes);
    if x == m {
    } else {
      SuccessorsCoverSmallRing(h, nodes - {m}, n - 1, x);
    }
  }

  lemma {:induction false} FewerSuccessorsArePrefix(h: RingId, nodes: set<RingId>, k: nat, n: nat)
    requires k <= n
    ensures Successors(h, nodes, k) <= Successors(h, nodes, n)
    decreases n
  {
    if k == 0 || nodes == {} {
    } else {
      FewerSuccessorsArePrefix(h, nodes - {Nearest(h, nodes)}, k - 1, n - 1);
    }
  }

  // ---------- minimal movement ----------

  /** The members of `s` outside `gone`, in their old order. */
  ghost function Survivors(s: seq<RingId>, gone: set<RingId>): (r: seq<RingId>)
    ensures forall x :: x in r <==> x in s && x !in gone
  {
    if s == [] then []
    else if s[0] in gone then Survivors(s[1..], gone)
    else [s[0]] + Survivors(s[1..], gone)
  }

  lemma SuccessorsStep(h: RingId, nodes: set<RingId>, n: nat, m: RingId)
    requires n > 0 && IsNearest(h, nodes, m)
    ensures Successors(h, nodes, n) == [m] + Successors(h, nodes - {m}, n - 1)
  {
    NearestIsUnique(h, nodes, m);
  }

  /** The first step of the walk after nodes have left, when its old first node stays. */
  lemma StepAfterRemoval(h: RingId, nodes: set<RingId>, gone: set<RingId>, n: nat, m: RingId)
    requires n > 0 && IsNearest(h, nodes, m) && m !in gone
    ensures Successors(h, nodes - gone, n) == [m] + Successors(h, nodes - {m} - gone, n - 1)
  {
    assert nodes - gone - {m} == nodes - {m} - gone;
    assert IsNearest(h, nodes - gone, m);
    SuccessorsStep(h, nodes - gone, n, m);
  }

  lemma SurvivorsStep(m: RingId, rest: seq<RingId>, gone: set<RingId>)
    ensures Survivors([m] + rest, gone) == if m in gone then Survivors(rest, gone) else [m] + Survivors(rest, gone)
  {
    assert ([m] + rest)[1..] == rest;
  }

  lemma PrefixTransitive(a: seq<RingId>, b: seq<RingId>, c: seq<RingId>)
    requires a <= b && b <= c
    ensures a <= c
  {}

  lemma PrefixCons(m: RingId, a: seq<RingId>, b: seq<RingId>)
    requires a <= b
    ensures [m] + a <= [m] + b
  {}

  lemma FrontWhenGone(h: RingId, nodes: set<RingId>, gone: set<RingId>, n: nat, m: RingId, kept: seq<RingId>)
    requires n > 0 && m in gone && kept <= Successors(h, nodes - {m} - gone, n - 1)
    ensures kept <= Successors(h, nodes - gone, n)
  {
    assert nodes - {m} - gone == nodes - gone;
    FewerSuccessorsArePrefix(h, nodes - gone, n - 1, n);
    PrefixTransitive(kept, Successors(h, nodes - gone, n - 1), Successors(h, nodes - gone, n));
  }

  lemma FrontWhenKept(h: RingId, nodes: set<RingId>, gone: set<RingId>, n: nat, m: RingId, kept: seq<RingId>)
    requires n > 0 && m !in gone && IsNearest(h, nodes, m) && kept <= Successors(h, nodes - {m} - gone, n - 1)
    ensures [m] + kept <= Successors(h, nodes - gone, n)
  {
    StepAfterRemoval(h, nodes, gone, n, m);
    PrefixCons(m, kept, Successors(h, nodes - {m} - gone, n - 1));
  }

  /** Removing any set of nodes keeps the surviving replicas, in order, at the front. */
  lemma {:induction false} RemovalKeepsSurvivorsInFront(h: RingId, nodes: set<RingId>, gone: set<RingId>, n: nat)
    ensures Survivors(Successors(h, nodes, n), gone) <= Successors(h, nodes - gone, n)
    decreases n
  {
    if n == 0 || nodes == {} {
    } else {
      var m := Nearest(h, nodes);
      NearestIsNearest(h, nodes);
      SuccessorsStep(h, nodes, n, m);
      RemovalKeepsSurvivorsInFront(h, nodes - {m}, gone, n - 1);
      var rest := Successors(h, nodes - {m}, n - 1);
      SurvivorsStep(m, rest, gone);
      if m in gone {
        FrontWhenGone(h, nodes, gone, n, m, Survivors(rest, gone));
      } else {
        FrontWhenKept(h, nodes, gone, n, m, Survivors(rest, gone));
      }
    }
  }

  /** With a survivor among the old replicas, the new primary is the first such survivor. */
  lemma NewPrimaryIsOldReplica(h: RingId, nodes: set<RingId>, gone: set<RingId>, n: nat)
    requires exists x :: x in Successors(h, nodes, n) && x !in gone
    ensures Successors(h, nodes - gone, n) != []
    ensures Successors(h, nodes - gone, n)[0] == Survivors(Successors(h, nodes, n), gone)[0]
    ensures Successors(h, nodes - gone, n)[0] in Successors(h, nodes, n)
  {
    RemovalKeepsSurvivorsInFront(h, nodes, gone, n);
    var kept := Survivors(Successors(h, nodes, n), gone);
    var x :| x in Successors(h, nodes, n) && x !in gone;
    assert x in kept;
    assert kept[0] in kept;
  }

  lemma FewerLostThanReplicas(h: RingId, nodes: set<RingId>, gone: set<RingId>, n: nat)
    requires |gone| < n && nodes - gone != {}
    ensures exists x :: x in Successors(h, nodes, n) && x !in gone
  {
    var s := Successors(h, nodes, n);
    if |nodes| <= n {
      var x :| x in nodes - gone;
      SuccessorsCoverSmallRing(h, nodes, n, x);
    } else if forall x :: x in s ==> x in gone {
      SuccessorsDistinct(h, nodes, n);
      SuccessorsWithin(h, nodes, n);
      DistinctWithin(s, gone);
      assert false;
    }
  }

  lemma {:induction false} DistinctWithin(s: seq<RingId>, within: set<RingId>)
    requires forall i, j :: 0 <= i < j < |s| ==> s[i] != s[j]
    requires forall x :: x in s ==> x in within
    ensures |s| <= |within|
  {
    if s == [] {
    } else {
      var t := s[..|s| - 1];
      assert forall x :: x in t ==> x in within - {s[|s| - 1]};
      DistinctWithin(t, within - {s[|s| - 1]});
    }
  }

  /** Adding nodes brings in added nodes only: every other member of the new list was there. */
  lemma AdditionOnlyIntroducesAdded(h: RingId, nodes: set<RingId>, added: set<RingId>, n: nat, x: RingId)
    requires added !! nodes
    requires x in Successors(h, nodes + added, n)
    ensures x in added || x in Successors(h, nodes, n)
  {
    RemovalKeepsSurvivorsInFront(h, nodes + added, added, n);
    assert nodes + added - added == nodes;
    if x !in added {
      assert x in Survivors(Successors(h, nodes + added, n), added);
    }
  }

  // ---------- the code ----------

  ghost function AliveIds(infoMap: map<RingId, Info>): set<RingId> {
    set id | id in infoMap && infoMap[id].state == Alive
  }

  ghost predicate Ascending(ids: seq<RingId>) {
    forall i, j :: 0 <= i < j < |ids| ==> ids[i] < ids[j]
  }

  ghost function Elements(ids: seq<RingId>): set<RingId> {
    set x | x in ids
  }

  lemma InsertedAt(sorted: seq<RingId>, p: nat, id: RingId)
    requires Ascending(sorted) && p <= |sorted|
    requires forall i :: 0 <= i < p ==> sorted[i] < id
    requires forall i :: p <= i < |sorted| ==> id < sorted[i]
    ensures Ascending(sorted[..p] + [id] + sorted[p..])
    ensures Elements(sorted[..p] + [id] + sorted[p..]) == Elements(sorted) + {id}
  {
    var r := sorted[..p] + [id] + sorted[p..];
    assert forall i :: 0 <= i < |r| ==> r[i] == if i < p then sorted[i] else if i == p then id else sorted[i - 1];
    InsertedElements(sorted, p, id);
  }

  lemma InsertedElements(sorted: seq<RingId>, p: nat, id: RingId)
    requires p <= |sorted|
    ensures Elements(sorted[..p] + [id] + sorted[p..]) == Elements(sorted) + {id}
  {
    var r := sorted[..p] + [id] + sorted[p..];
    assert sorted == sorted[..p] + sorted[p..];
    assert forall x :: x in r <==> x in sorted || x == id;
  }

  method InsertId(sorted: seq<RingId>, id: RingId) returns (r: seq<RingId>)
    requires Ascending(sorted) && id !in sorted
    ensures Ascending(r) && Elements(r) == Elements(sorted) + {id}
  {
    var p := 0;
    while p < |sorted| && sorted[p] < id
      invariant p <= |sorted|
      invariant forall i :: 0 <= i < p ==> sorted[i] < id
    {
      p := p + 1;
    }
    if p < |sorted| { assert sorted[p] in sorted; }
    InsertedAt(sorted, p, id);
    r := sorted[..p] + [id] + sorted[p..];
  }

  /** `sort.Slice` on distinct ids, as an insertion sort. */
  method SortIds(ids: seq<RingId>) returns (sorted: seq<RingId>)
    requires forall i, j :: 0 <= i < j < |ids| ==> ids[i] != ids[j]
    ensures Ascending(sorted) && Elements(sorted) == Elements(ids)
  {
    sorted := [];
    for k := 0 to |ids|
      invariant Ascending(sorted) && Elements(sorted) == Elements(ids[..k])
    {
      assert ids[k] !in Elements(ids[..k]);
      assert ids[..k + 1] == ids[..k] + [ids[k]];
      sorted := InsertId(sorted, ids[k]);
    }
    assert ids[..|ids|] == ids;
  }

  /** `sort.Search`: the first index holding an id at or after `h`, or the length. */
  method SearchFirst(ids: seq<RingId>, h: RingId) returns (idx: nat)
    requires Ascending(ids)
    ensures idx <= |ids|
    ensures forall i :: 0 <= i < idx ==> ids[i] < h
    ensures forall i :: idx <= i < |ids| ==> ids[i] >= h
  {
    idx := 0;
    var hi := |ids|;
    while idx < hi
      invariant 0 <= idx <= hi <= |ids|
      invariant forall i :: 0 <= i < idx ==> ids[i] < h
      invariant forall i :: hi <= i < |ids| ==> ids[i] >= h
    {
      var mid := (idx + hi) / 2;
      if ids[mid] >= h { hi := mid; } else { idx := mid + 1; }
    }
  }

  lemma WrapIndex(len: nat, start: nat, k: nat)
    requires start < len && k < len
    ensures (start + k) % len == if start + k < len then start + k else start + k - len
  {
    if start + k >= len {
      assert (start + k) % len == (start + k - len) % len;
    }
  }

  /** The ascending ids read cyclically from `start`. */
  function Rotation(ids: seq<RingId>, start: nat): (r: seq<RingId>)
    requires start <= |ids|
    ensures |r| == |ids|
  {
    ids[start..] + ids[..start]
  }

  ghost predicate ByDistance(h: RingId, walk: seq<RingId>) {
    forall i, j :: 0 <= i < j < |walk| ==> Distance(h, walk[i]) < Distance(h, walk[j])
  }

  /** From the first id at or after the hash, the rotation runs by increasing distance. */
  lemma RotationByDistance(h: RingId, ids: seq<RingId>, start: nat)
    requires Ascending(ids) && start <= |ids|
    requires forall i :: 0 <= i < start ==> ids[i] < h
    requires forall i :: start <= i < |ids| ==> ids[i] >= h
    ensures ByDistance(h, Rotation(ids, start))
  {
    var r := Rotation(ids, start);
    assert forall i :: 0 <= i < |r| ==> r[i] == if i < |ids| - start then ids[start + i] else ids[i - (|ids| - start)];
  }

  lemma RotationElements(ids: seq<RingId>, start: nat)
    requires start <= |ids|
    ensures Elements(Rotation(ids, start)) == Elements(ids)
  {
    assert ids == ids[..start] + ids[start..];
  }

  lemma FirstIsNearest(h: RingId, walk: seq<RingId>)
    requires ByDistance(h, walk) && walk != []
    ensures IsNearest(h, Elements(walk), walk[0])
    ensures Elements(walk) - {walk[0]} == Elements(walk[1..])
  {
    forall x | x in Elements(walk) && x != walk[0]
      ensures Distance(h, walk[0]) <= Distance(h, x) && x in walk[1..]
    {
      var i :| 0 <= i < |walk| && walk[i] == x;
      assert walk[1..][i - 1] == x;
    }
    forall i | 0 <= i < |walk| - 1
      ensures walk[1..][i] != walk[0]
    {
      assert Distance(h, walk[0]) < Distance(h, walk[i + 1]);
    }
  }

  function FirstOf(walk: seq<RingId>, n: nat): seq<RingId> {
    walk[..if n <= |walk| then n else |walk|]
  }

  lemma FirstOfStep(walk: seq<RingId>, n: nat)
    requires walk != [] && n > 0
    ensures FirstOf(walk, n) == [walk[0]] + FirstOf(walk[1..], n - 1)
  {}

  lemma TailByDistance(h: RingId, walk: seq<RingId>)
    requires ByDistance(h, walk) && walk != []
    ensures ByDistance(h, walk[1..])
  {}

  lemma WalkStep(h: RingId, walk: seq<RingId>, n: nat)
    requires ByDistance(h, walk) && walk != [] && n > 0
    requires Successors(h, Elements(walk[1..]), n - 1) == FirstOf(walk[1..], n - 1)
    ensures Successors(h, Elements(walk), n) == FirstOf(walk, n)
  {
    FirstIsNearest(h, walk);
    SuccessorsStep(h, Elements(walk), n, walk[0]);
    FirstOfStep(walk, n);
  }

  /** Reading nodes by increasing distance is the clockwise walk. */
  lemma {:induction false} WalkIsSuccessors(h: RingId, walk: seq<RingId>, n: nat)
    requires ByDistance(h, walk)
    ensures Successors(h, Elements(walk), n) == FirstOf(walk, n)
    decreases n
  {
    if walk == [] {
      assert Elements(walk) == {};
    } else if n > 0 {
      TailByDistance(h, walk);
      WalkIsSuccessors(h, walk[1..], n - 1);
      WalkStep(h, walk, n);
    }
  }

  /** The ids of the alive members, in some map iteration order. */
  method CollectAlive(infoMap: map<RingId, Info>) returns (nodeIDs: seq<RingId>)
    ensures forall i, j :: 0 <= i < j < |nodeIDs| ==> nodeIDs[i] != nodeIDs[j]
    ensures Elements(nodeIDs) == AliveIds(infoMap)
  {
    nodeIDs := [];
    var todo := infoMap.Keys;
    while todo != {}
      invariant todo <= infoMap.Keys
      invariant forall i, j :: 0 <= i < j < |nodeIDs| ==> nodeIDs[i] != nodeIDs[j]
      invariant forall x :: x in nodeIDs <==> x in AliveIds(infoMap) && x !in todo
      decreases todo
    {
      var id :| id in todo;
      todo := todo - {id};
      if infoMap[id].state == Alive {
        nodeIDs := nodeIDs + [id];
      }
    }
  }

  /** The collecting loop: up to `n` ids from `idx` on, wrapping around. */
  method TakeCyclic(ids: seq<RingId>, idx: nat, n: nat) returns (result: seq<RingId>)
    requires idx < |ids|
    ensures result == Rotation(ids, idx)[..if n <= |ids| then n else |ids|]
  {
    result := [];
    var i := 0;
    while i < n && i < |ids|
      invariant i <= n && i <= |ids|
      invariant result == Rotation(ids, idx)[..i]
    {
      WrapIndex(|ids|, idx, i);
      result := result + [ids[(idx + i) % |ids|]];
      i := i + 1;
    }
  }

  /** From the first id at or after the hash (wrapping to the smallest) up to `n` ids cyclically. */
  method WalkFrom(ids: seq<RingId>, fileHash: RingId, n: nat) returns (result: seq<RingId>)
    requires Ascending(ids) && ids != []
    ensures result == Successors(fileHash, Elements(ids), n)
  {
    var idx := SearchFirst(ids, fileHash);
    RotationByDistance(fileHash, ids, idx);
    RotationElements(ids, idx);
    WalkIsSuccessors(fileHash, Rotation(ids, idx), n);
    if idx == |ids| {
      idx := 0;
      assert Rotation(ids, |ids|) == Rotation(ids, 0);
    }
    result := TakeCyclic(ids, idx, n);
  }

  /** They are alive members, and an alive member that is left out has `n` of them before it. */
  ghost predicate AreNearestAlive(result: seq<RingId>, h: RingId, infoMap: map<RingId, Info>, n: nat) {
    && (forall x :: x in result ==> x in infoMap && infoMap[x].state == Alive)
    && forall x :: x in infoMap && infoMap[x].state == Alive && x !in result ==>
         |result| == n && forall y :: y in result ==> Distance(h, y) <= Distance(h, x)
  }

  lemma SuccessorsAreNearestAlive(h: RingId, infoMap: map<RingId, Info>, n: nat)
    ensures AreNearestAlive(Successors(h, AliveIds(infoMap), n), h, infoMap, n)
  {
    var r := Successors(h, AliveIds(infoMap), n);
    SuccessorsWithin(h, AliveIds(infoMap), n);
    forall x | x in infoMap && infoMap[x].state == Alive && x !in r
      ensures |r| == n && forall y :: y in r ==> Distance(h, y) <= Distance(h, x)
    {
      LeftOutIsFarther(h, AliveIds(infoMap), n, x);
    }
  }

  /** `GetSuccessors`: collect the alive ids, sort them, find the first at or after the hash
      (wrapping to the smallest), and take up to `n` cyclically. */
  method GetSuccessors(fileHash: RingId, infoMap: map<RingId, Info>, n: nat) returns (result: seq<RingId>)
    ensures result == Successors(fileHash, AliveIds(infoMap), n)
    ensures AreNearestAlive(result, fileHash, infoMap, n)
  {
    SuccessorsAreNearestAlive(fileHash, infoMap, n);
    if |infoMap| == 0 {
      assert AliveIds(infoMap) == {};
      return [];
    }
    var nodeIDs := CollectAlive(infoMap);
    if |nodeIDs| == 0 {
      assert AliveIds(infoMap) == {};
      return [];
    }
    var ids := SortIds(nodeIDs);
    assert nodeIDs[0] in Elements(ids);
    result := WalkFrom(ids, fileHash, n);
  }
}
