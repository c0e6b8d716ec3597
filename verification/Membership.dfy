/** The membership list of a node: what it knows about every member, and the permuted list it
    draws its gossip and ping targets from. */
module MembershipList {
  import opened Maybe
  import opened MemberInfo

  type Infos = map<nat, Info>

  function Entry(m: Infos, id: nat): Option<Info> {
    if id in m then Some(m[id]) else None
  }

  /** The ids of the members not known to have failed. */
  function Live(m: Infos): set<nat> {
    set id | id in m && m[id].state != Failed
  }

  // ---------- merging ----------

  /** What becomes of one entry when another node's view of it arrives. */
  function MergedEntry(mine: Option<Info>, theirs: Info, now: int): Option<Info> {
    if theirs.port == 0 || theirs.hostname == "" then mine
    else
      match mine
      case None => if theirs.state == Failed then None else Some(theirs.(timestamp := now))
      case Some(i) =>
        if theirs.state == Failed then
          if i.state == Failed then mine else Some(theirs.(timestamp := now))
        else if theirs.counter > i.counter then Some(theirs.(timestamp := now))
        else mine
  }

  /** A change that makes the node rebuild its list: a new member, or a failure it did not know of. */
  predicate Notable(mine: Option<Info>, theirs: Info) {
    theirs.port != 0 && theirs.hostname != ""
    && (if mine.None? then theirs.state != Failed else theirs.state == Failed && mine.value.state != Failed)
  }

  function EntryAfter(m: Infos, incoming: Infos, id: nat, now: int): Option<Info> {
    if id in incoming then MergedEntry(Entry(m, id), incoming[id], now) else Entry(m, id)
  }

  ghost predicate IsMerged(m: Infos, incoming: Infos, now: int, r: Infos) {
    forall id :: Entry(r, id) == EntryAfter(m, incoming, id, now)
  }

  predicate AnyNotable(m: Infos, incoming: Infos) {
    exists id :: id in incoming && Notable(Entry(m, id), incoming[id])
  }

  /** Merging is determined by its inputs, whatever the order in which entries are visited. */
  lemma MergedIsUnique(m: Infos, incoming: Infos, now: int, r: Infos, q: Infos)
    requires IsMerged(m, incoming, now, r) && IsMerged(m, incoming, now, q)
    ensures r == q
  {
    forall id ensures Entry(r, id) == Entry(q, id) {}
    assert forall id :: id in r <==> Entry(r, id).Some?;
    assert forall id :: id in q <==> Entry(q, id).Some?;
    forall id | id in r ensures id in q && r[id] == q[id] {
      assert Entry(r, id) == Entry(q, id);
    }
    forall id | id in q ensures id in r {
      assert Entry(r, id) == Entry(q, id);
    }
  }

  /** Merging the same information again changes nothing and is not notable. */
  lemma MergeIdempotent(m: Infos, incoming: Infos, now: int, r: Infos, later: int)
    requires IsMerged(m, incoming, now, r)
    ensures IsMerged(r, incoming, later, r) && !AnyNotable(r, incoming)
  {
    forall id ensures Entry(r, id) == EntryAfter(r, incoming, id, later) {
      assert Entry(r, id) == EntryAfter(m, incoming, id, now);
    }
    forall id | id in incoming ensures !Notable(Entry(r, id), incoming[id]) {
      assert Entry(r, id) == EntryAfter(m, incoming, id, now);
    }
  }

  /** A counter goes down in a merge exactly if a failure arrives with a lower counter than the one
      known for a member not yet considered failed. */
  lemma CounterDropsIff(m: Infos, incoming: Infos, now: int, r: Infos, id: nat)
    requires IsMerged(m, incoming, now, r) && id in m
    ensures id in r
    ensures r[id].counter < m[id].counter <==>
      id in incoming && Notable(Some(m[id]), incoming[id]) && incoming[id].counter < m[id].counter
  {
    assert Entry(r, id) == EntryAfter(m, incoming, id, now);
  }

  /** A known failure is overruled by a later sign of life. */
  predicate Resurrects(m: Infos, incoming: Infos, id: nat) {
    id in m && id in incoming && m[id].state == Failed && incoming[id].state != Failed
    && incoming[id].port != 0 && incoming[id].hostname != "" && incoming[id].counter > m[id].counter
  }

  /** If the list held all live members before a merge, it does so afterwards exactly if the merge
      was notable, and so rebuilt the list, or resurrected nobody. */
  lemma ListCompleteIff(m: Infos, incoming: Infos, now: int, r: Infos, members: seq<nat>, members': seq<nat>)
    requires IsMerged(m, incoming, now, r) && Complete(members, m)
    requires if AnyNotable(m, incoming) then Complete(members', r) else members' == members
    ensures Complete(members', r) <==> AnyNotable(m, incoming) || forall id :: !Resurrects(m, incoming, id)
  {
    if !AnyNotable(m, incoming) {
      forall id ensures id in Live(r) <==> id in Live(m) || Resurrects(m, incoming, id) {
        QuietMerge(m, incoming, now, r, id);
      }
      if id :| Resurrects(m, incoming, id) {
        assert id in Live(r) && id !in members;
      }
    }
  }

  lemma QuietMerge(m: Infos, incoming: Infos, now: int, r: Infos, id: nat)
    requires IsMerged(m, incoming, now, r) && !AnyNotable(m, incoming)
    ensures id in Live(r) <==> id in Live(m) || Resurrects(m, incoming, id)
  {
    assert Entry(r, id) == EntryAfter(m, incoming, id, now);
    assert id in incoming ==> !Notable(Entry(m, id), incoming[id]);
  }

  ghost predicate Complete(members: seq<nat>, m: Infos) {
    forall id :: id in members <==> id in Live(m)
  }

  // ---------- timeouts ----------

  /** What a timeout check makes of one entry. */
  function Checked(i: Info, now: int, Tfail: int, Tsuspect: int, suspicion: bool): Info {
    var elapsed := now - i.timestamp;
    if suspicion then
      if i.state == Alive && elapsed > Tsuspect then i.(state := Suspected, timestamp := now)
      else if i.state == Suspected && elapsed > Tfail then i.(state := Failed, timestamp := now)
      else i
    else if i.state == Alive && elapsed > Tfail then i.(state := Failed, timestamp := now)
    else i
  }

  /** The state a verdict leads to: without suspicion, suspected members fail at once. */
  function Verdict(state: MemberState, suspicion: bool): MemberState {
    if state == Suspected && !suspicion then Failed else state
  }

  predicate Fails(before: Infos, after: Infos, id: nat) {
    id in before && id in after && after[id].state == Failed && before[id].state != Failed
  }

  lemma FailsMore(before: Infos, now: Infos, after: Infos, id: nat)
    requires id in before && id in now && id in after && after == now[id := after[id]] && now[id] == before[id]
    ensures (exists o :: Fails(before, after, o)) <==> (exists o :: Fails(before, now, o)) || Fails(before, after, id)
  {
    forall o | o != id ensures Fails(before, after, o) <==> Fails(before, now, o) {}
    assert !Fails(before, now, id);
  }

  // ---------- permutations ----------

  predicate Distinct(s: seq<nat>) {
    forall i, j :: 0 <= i < j < |s| ==> s[i] != s[j]
  }

  predicate SameElements(s: seq<nat>, t: seq<nat>) {
    multiset(s) == multiset(t)
  }

  lemma PermutedDistinct(s: seq<nat>, t: seq<nat>)
    requires SameElements(s, t) && Distinct(s)
    ensures Distinct(t) && |t| == |s|
    ensures forall x :: x in t <==> x in s
  {
    assert |multiset(s)| == |s| && |multiset(t)| == |t|;
    forall x ensures x in t <==> x in s {
      assert x in t <==> x in multiset(t);
      assert x in s <==> x in multiset(s);
    }
    forall i, j | 0 <= i < j < |t| ensures t[i] != t[j] {
      if t[i] == t[j] {
        TwicePresent(t, i, j);
        DistinctOnce(s, t[i]);
      }
    }
  }

  lemma TwicePresent(t: seq<nat>, i: nat, j: nat)
    requires i < j < |t| && t[i] == t[j]
    ensures multiset(t)[t[i]] >= 2
  {
    assert t == t[..i] + [t[i]] + t[i + 1..j] + [t[j]] + t[j + 1..];
  }

  lemma {:induction false} DistinctOnce(s: seq<nat>, x: nat)
    requires Distinct(s)
    ensures multiset(s)[x] <= 1
  {
    if s == [] {
    } else {
      DistinctOnce(s[1..], x);
      assert s == [s[0]] + s[1..];
      assert s[0] !in s[1..];
    }
  }

  /** In-place random permutation: every element is swapped with an arbitrary one up to it. */
  method RandomPermutation(a: array<nat>, draw: nat -> nat)
    modifies a
    ensures SameElements(a[..], old(a[..]))
  {
    var i := 0;
    while i < a.Length
      invariant 0 <= i <= a.Length && SameElements(a[..], old(a[..]))
    {
      var j := draw(i) % (i + 1);
      if i != j {
        a[i], a[j] := a[j], a[i];
      }
      i := i + 1;
    }
  }

  // ---------- the list ----------

  class Membership {
    var members: seq<nat>
    var infoMap: Infos
    var roundRobinIndex: nat

    /** No duplicates, nobody known to have failed, and the index points into the list. */
    ghost predicate Valid()
      reads this
    {
      && Distinct(members)
      && (forall id :: id in members ==> id in Live(infoMap))
      && (if members == [] then roundRobinIndex == 0 else roundRobinIndex < |members|)
    }

    constructor ()
      ensures Valid() && members == [] && infoMap == map[]
    {
      members, infoMap, roundRobinIndex := [], map[], 0;
    }

    method Permute(draw: nat -> nat)
      modifies this`members
      ensures SameElements(members, old(members))
    {
      var s := members;
      var a := new nat[|s|](i requires 0 <= i < |s| => s[i]);
      assert a[..] == s;
      RandomPermutation(a, draw);
      members := a[..];
    }

    /** Lists all live members in random order and starts from the first. */
    method Rebuild(draw: nat -> nat)
      modifies this`members, this`roundRobinIndex
      ensures Valid() && Complete(members, infoMap) && roundRobinIndex == 0
    {
      members := [];
      var left := infoMap.Keys;
      while left != {}
        invariant left <= infoMap.Keys && Distinct(members)
        invariant forall id :: id in members <==> id in Live(infoMap) && id !in left
        decreases |left|
      {
        var id :| id in left;
        if infoMap[id].state != Failed {
          members := members + [id];
        }
        left := left - {id};
      }
      ghost var listed := members;
      Permute(draw);
      PermutedDistinct(listed, members);
      roundRobinIndex := 0;
    }

    /** Merges another node's view; the list is rebuilt if the merge was notable, else kept. */
    method Merge(memberInfo: Infos, currentTime: int, draw: nat -> nat) returns (memberChanged: bool)
      requires Valid()
      modifies this
      ensures Valid()
      ensures IsMerged(old(infoMap), memberInfo, currentTime, infoMap)
      ensures memberChanged <==> AnyNotable(old(infoMap), memberInfo)
      ensures memberChanged ==> Complete(members, infoMap) && roundRobinIndex == 0
      ensures !memberChanged ==> members == old(members) && roundRobinIndex == old(roundRobinIndex)
    {
      memberChanged := false;
      var left := memberInfo.Keys;
      ghost var before := infoMap;
      while left != {}
        invariant left <= memberInfo.Keys
        invariant forall id ::
          Entry(infoMap, id) == if id in left then Entry(before, id) else EntryAfter(before, memberInfo, id, currentTime)
        invariant memberChanged <==> exists id :: id in memberInfo && id !in left && Notable(Entry(before, id), memberInfo[id])
        invariant members == old(members) && roundRobinIndex == old(roundRobinIndex)
        decreases |left|
      {
        var id :| id in left;
        var notable := MergeOne(id, memberInfo[id], currentTime);
        memberChanged := memberChanged || notable;
        left := left - {id};
      }
      if memberChanged {
        Rebuild(draw);
      } else {
        QuietMergeKeepsList(before, memberInfo, currentTime, infoMap, members);
      }
    }

    method MergeOne(id: nat, theirs: Info, currentTime: int) returns (notable: bool)
      modifies this`infoMap
      ensures Entry(infoMap, id) == MergedEntry(old(Entry(infoMap, id)), theirs, currentTime)
      ensures forall o :: o != id ==> Entry(infoMap, o) == old(Entry(infoMap, o))
      ensures notable <==> Notable(old(Entry(infoMap, id)), theirs)
    {
      notable := false;
      if theirs.port == 0 || theirs.hostname == "" {
        return;
      }
      if id in infoMap {
        if theirs.state == Failed {
          if infoMap[id].state != Failed {
            infoMap := infoMap[id := theirs.(timestamp := currentTime)];
            notable := true;
          }
        } else if theirs.counter > infoMap[id].counter {
          infoMap := infoMap[id := theirs.(timestamp := currentTime)];
        }
      } else if theirs.state != Failed {
        infoMap := infoMap[id := theirs.(timestamp := currentTime)];
        notable := true;
      }
    }

    /** Checks every member for timeouts; the list is rebuilt if anybody failed. */
    method UpdateStateGossip(currentTime: int, Tfail: int, Tsuspect: int, suspicion: bool, draw: nat -> nat)
      returns (anyFailed: bool)
      requires Valid()
      modifies this
      ensures Valid() && infoMap.Keys == old(infoMap).Keys
      ensures forall id :: id in infoMap ==> infoMap[id] == Checked(old(infoMap)[id], currentTime, Tfail, Tsuspect, suspicion)
      ensures anyFailed <==> exists id :: Fails(old(infoMap), infoMap, id)
      ensures anyFailed ==> Complete(members, infoMap) && roundRobinIndex == 0
      ensures !anyFailed ==> members == old(members) && roundRobinIndex == old(roundRobinIndex)
    {
      ghost var before := infoMap;
      anyFailed := CheckAll(currentTime, Tfail, Tsuspect, suspicion);
      if anyFailed {
        Rebuild(draw);
      } else {
        QuietCheckKeepsList(before, infoMap, members);
      }
    }

    method CheckAll(currentTime: int, Tfail: int, Tsuspect: int, suspicion: bool) returns (anyFailed: bool)
      modifies this`infoMap
      ensures infoMap.Keys == old(infoMap).Keys
      ensures forall id :: id in infoMap ==> infoMap[id] == Checked(old(infoMap)[id], currentTime, Tfail, Tsuspect, suspicion)
      ensures anyFailed <==> exists id :: Fails(old(infoMap), infoMap, id)
    {
      anyFailed := false;
      var left := infoMap.Keys;
      ghost var before := infoMap;
      while left != {}
        invariant left <= infoMap.Keys == before.Keys
        invariant forall id :: id in infoMap ==>
          infoMap[id] == if id in left then before[id] else Checked(before[id], currentTime, Tfail, Tsuspect, suspicion)
        invariant anyFailed <==> exists id :: Fails(before, infoMap, id)
        decreases |left|
      {
        var id :| id in left;
        ghost var now := infoMap;
        var failed := CheckOne(id, currentTime, Tfail, Tsuspect, suspicion);
        FailsMore(before, now, infoMap, id);
        anyFailed := anyFailed || failed;
        left := left - {id};
      }
    }

    method CheckOne(id: nat, currentTime: int, Tfail: int, Tsuspect: int, suspicion: bool) returns (failed: bool)
      requires id in infoMap
      modifies this`infoMap
      ensures infoMap == old(infoMap)[id := Checked(old(infoMap)[id], currentTime, Tfail, Tsuspect, suspicion)]
      ensures failed <==> infoMap[id].state == Failed && old(infoMap)[id].state != Failed
    {
      var info := infoMap[id];
      var elapsed := currentTime - info.timestamp;
      var oldState := info.state;
      failed := false;
      if suspicion {
        if oldState == Alive && elapsed > Tsuspect {
          info := info.(state := Suspected, timestamp := currentTime);
        } else if oldState == Suspected && elapsed > Tfail {
          info := info.(state := Failed, timestamp := currentTime);
          failed := true;
        }
      } else {
        if oldState == Alive && elapsed > Tfail {
          info := info.(state := Failed, timestamp := currentTime);
          failed := true;
        }
      }
      infoMap := infoMap[id := info];
    }

    /** Applies a verdict to one member, unless it is unknown or has failed already. */
    method UpdateStateSwim(currentTime: int, id: nat, state: MemberState, suspicion: bool, draw: nat -> nat)
      returns (failed: bool)
      requires Valid()
      modifies this
      ensures Valid()
      ensures var known := id in old(infoMap) && old(infoMap)[id].state != Failed;
        && infoMap == (if known then old(infoMap)[id := old(infoMap)[id].(timestamp := currentTime, state := Verdict(state, suspicion))]
                       else old(infoMap))
        && (failed <==> known && Verdict(state, suspicion) == Failed)
      ensures failed ==> Complete(members, infoMap) && roundRobinIndex == 0
      ensures !failed ==> members == old(members) && roundRobinIndex == old(roundRobinIndex)
    {
      failed := false;
      if id in infoMap && infoMap[id].state != Failed {
        var info := infoMap[id].(timestamp := currentTime);
        if state == Suspected && !suspicion {
          info := info.(state := Failed);
        } else {
          info := info.(state := state);
        }
        infoMap := infoMap[id := info];
        if info.state == Failed {
          Rebuild(draw);
          failed := true;
        }
      }
    }

    /** Forgets members that failed long ago. */
    method Cleanup(currentTime: int, Tcleanup: int)
      requires Valid()
      modifies this`infoMap
      ensures Valid()
      ensures infoMap == map id | id in old(infoMap)
        && !(old(infoMap)[id].state == Failed && currentTime - old(infoMap)[id].timestamp > Tcleanup) :: old(infoMap)[id]
    {
      var left := infoMap.Keys;
      ghost var before := infoMap;
      while left != {}
        invariant left <= infoMap.Keys <= before.Keys
        invariant forall id :: id in infoMap ==> infoMap[id] == before[id]
        invariant forall id :: id in before ==> (id in infoMap <==>
          id in left || !(before[id].state == Failed && currentTime - before[id].timestamp > Tcleanup))
        decreases |left|
      {
        var id :| id in left;
        if infoMap[id].state == Failed && currentTime - infoMap[id].timestamp > Tcleanup {
          infoMap := infoMap - {id};
        }
        left := left - {id};
      }
    }

    /** Starts over as the only member, under the id of its new incarnation. */
    method Reset(currentTime: int, hostname: string, port: int, hashInfo: Info -> nat)
      modifies this
      ensures Valid()
      ensures var me := Info(hostname, port, currentTime, currentTime, 0, Alive);
        members == [hashInfo(me)] && infoMap == map[hashInfo(me) := me] && roundRobinIndex == 0
    {
      var newInfo := Info(hostname, port, currentTime, currentTime, 0, Alive);
      var newId := hashInfo(newInfo);
      members := [newId];
      infoMap := map[newId := newInfo];
      roundRobinIndex := 0;
    }

    /** Takes a member out of the map and the list. */
    method RemoveMember(id: nat, draw: nat -> nat)
      requires Valid()
      modifies this
      ensures Valid() && infoMap == old(infoMap) - {id}
      ensures var rest := Without(old(members), id);
        if old(roundRobinIndex) < |rest| then members == rest && roundRobinIndex == old(roundRobinIndex)
        else SameElements(members, rest) && roundRobinIndex == 0
    {
      infoMap := infoMap - {id};
      TakeOut(id);
      if roundRobinIndex >= |members| {
        ghost var listed := members;
        Permute(draw);
        PermutedDistinct(listed, members);
        roundRobinIndex := 0;
      }
    }

    method TakeOut(id: nat)
      requires Distinct(members)
      modifies this`members
      ensures members == Without(old(members), id) && Distinct(members)
      ensures forall x :: x in members <==> x in old(members) && x != id
    {
      var i := 0;
      while i < |members| && members[i] != id
        invariant 0 <= i <= |members|
        invariant forall j :: 0 <= j < i ==> members[j] != id
      {
        i := i + 1;
      }
      RemovedAt(members, i, id);
      WithoutKeepsRest(members, id);
      if i < |members| {
        members := members[..i] + members[i + 1..];
      }
    }

    /** The next target in round-robin order; fails only if there are no members. */
    method GetTarget(draw: nat -> nat) returns (r: Result<Info>, ghost id: nat)
      requires Valid()
      modifies this`members, this`roundRobinIndex
      ensures Valid()
      ensures r.Err? <==> old(members) == []
      ensures r.Err? ==> members == [] && roundRobinIndex == 0
      ensures r.Ok? ==> id in infoMap && r.value == infoMap[id] && r.value.state != Failed
      ensures r.Ok? ==> Turn(old(members), old(roundRobinIndex), id, members, roundRobinIndex)
    {
      if |members| == 0 {
        return Err("no existing member"), 0;
      }
      id := members[roundRobinIndex];
      assert id in members;
      if members[roundRobinIndex] !in infoMap {
        r := Err("inconsistent membership");
        return;
      }
      r := Ok(infoMap[members[roundRobinIndex]]);
      roundRobinIndex := roundRobinIndex + 1;
      if roundRobinIndex == |members| {
        ghost var listed := members;
        Permute(draw);
        PermutedDistinct(listed, members);
        roundRobinIndex := 0;
      }
    }

    /** Counts the node's own heartbeat, unless it is considered failed or is not a member. */
    method Heartbeat(id: nat, currentTime: int) returns (r: Result<()>)
      requires Valid()
      modifies this`infoMap
      ensures Valid()
      ensures r.Ok? <==> id in old(infoMap) && old(infoMap)[id].state != Failed
      ensures infoMap == if r.Ok?
        then old(infoMap)[id := old(infoMap)[id].(timestamp := currentTime, counter := old(infoMap)[id].counter + 1)]
        else old(infoMap)
    {
      if id in infoMap {
        if infoMap[id].state == Failed {
          return Err("you failed");
        }
        infoMap := infoMap[id := infoMap[id].(timestamp := currentTime, counter := infoMap[id].counter + 1)];
        return Ok(());
      }
      r := Err("no such ID");
    }
  }

  lemma QuietMergeKeepsList(m: Infos, incoming: Infos, now: int, r: Infos, members: seq<nat>)
    requires IsMerged(m, incoming, now, r) && !AnyNotable(m, incoming)
    requires forall id :: id in members ==> id in Live(m)
    ensures forall id :: id in members ==> id in Live(r)
  {
    forall id | id in members ensures id in Live(r) {
      QuietMerge(m, incoming, now, r, id);
    }
  }

  lemma QuietCheckKeepsList(before: Infos, after: Infos, members: seq<nat>)
    requires before.Keys == after.Keys && !exists id :: Fails(before, after, id)
    requires forall id :: id in members ==> id in Live(before)
    ensures forall id :: id in members ==> id in Live(after)
  {
    forall id | id in members ensures id in Live(after) {
      assert !Fails(before, after, id);
    }
  }

  function Without(s: seq<nat>, id: nat): seq<nat> {
    if s == [] then []
    else if s[0] == id then Without(s[1..], id)
    else [s[0]] + Without(s[1..], id)
  }

  lemma {:induction false} WithoutKeepsRest(s: seq<nat>, id: nat)
    requires Distinct(s)
    ensures Distinct(Without(s, id)) && forall x :: x in Without(s, id) <==> x in s && x != id
  {
    if s == [] {
    } else {
      assert s == [s[0]] + s[1..];
      WithoutKeepsRest(s[1..], id);
      var rest := Without(s[1..], id);
      assert s[0] !in s[1..] && s[0] !in rest;
      assert s[0] != id ==> Distinct([s[0]] + rest);
    }
  }

  lemma {:induction false} RemovedAt(s: seq<nat>, i: nat, id: nat)
    requires i <= |s| && Distinct(s) && (forall j :: 0 <= j < i ==> s[j] != id) && (i < |s| ==> s[i] == id)
    ensures Without(s, id) == if i < |s| then s[..i] + s[i + 1..] else s
  {
    if s == [] {
    } else {
      if i == 0 {
        RemovedAt(s[1..], |s| - 1, id);
      } else {
        RemovedAt(s[1..], i - 1, id);
        assert i < |s| ==> [s[0]] + (s[1..][..i - 1] + s[1..][i..]) == s[..i] + s[i + 1..];
        assert [s[0]] + s[1..] == s;
      }
    }
  }

  // ---------- round robin ----------

  /** One round-robin turn: `out` is the member at the index; the index moves on, and at the end of
      the list starts over on some permutation of it. */
  ghost predicate Turn(members: seq<nat>, index: nat, out: nat, members': seq<nat>, index': nat) {
    index < |members| && out == members[index]
    && if index + 1 < |members| then members' == members && index' == index + 1
       else SameElements(members', members) && index' == 0
  }
}
