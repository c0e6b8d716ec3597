/** The SWIM failure detector: the two wait tables, and the locked sections in which a protocol period
    and the arriving pongs change them. */
module SwimDetector {
  import opened Maybe
  import opened MemberInfo
  import opened MembershipList
  import opened SwimTrace

  // ---------- the record ----------

  /** What happened at the node: both tables were checked, a ping was sent, its entry was made, a pong
      to an own ping was handled. */
  datatype Logged =
    | Checks(now: int, suspicion: bool)
    | Sends(id: nat, info: Info)
    | Inserts(id: nat)
    | Pongs(id: nat)

  /** What an entry of the record is to the member, if anything. */
  function Seen(e: Logged, id: nat): seq<Event> {
    match e
    case Checks(now, suspicion) => [Check(now, suspicion)]
    case Sends(to, info) => if to == id then [Send(info)] else []
    case Inserts(to) => if to == id then [Insert] else []
    case Pongs(of) => if of == id then [Pong] else []
  }

  /** The events of one member in the record. */
  function Of(log: seq<Logged>, id: nat): seq<Event> {
    if log == [] then [] else Of(log[..|log| - 1], id) + Seen(log[|log| - 1], id)
  }

  lemma OfAppend(log: seq<Logged>, e: Logged, id: nat)
    ensures Of(log + [e], id) == Of(log, id) + Seen(e, id)
  {
    assert (log + [e])[..|log|] == log;
  }

  function InfoOf(p: Option<Ping>): Option<Info> {
    if p.Some? then Some(p.value.info) else None
  }

  /** The ping on its way to a member, if that is whom it went to. */
  function FlightTo(flight: Option<(nat, Info)>, id: nat): Option<Info> {
    if flight.Some? && flight.value.0 == id then Some(flight.value.1) else None
  }

  /** The member's entries are what its events leave. */
  ghost predicate Shows(log: seq<Logged>, id: nat, direct: Option<Info>, indirect: Option<Info>, flight: Option<Info>, l: Limits) {
    var w := Replay(Of(log, id), l);
    && Possible(Of(log, id), l)
    && direct == InfoOf(w.direct) && indirect == InfoOf(w.indirect) && flight == InfoOf(w.flight)
  }

  ghost predicate AllShown(log: seq<Logged>, direct: Infos, indirect: Infos, flight: Option<(nat, Info)>, l: Limits) {
    forall id: nat {:trigger Of(log, id)} :: Shows(log, id, Entry(direct, id), Entry(indirect, id), FlightTo(flight, id), l)
  }

  lemma NothingShown(l: Limits)
    ensures AllShown([], map[], map[], None, l)
  {
    var none: Infos := map[];
    forall id: nat ensures Shows([], id, Entry(none, id), Entry(none, id), FlightTo(None, id), l) {
      assert Of([], id) == [];
    }
  }

  /** What a ping with nothing in between adds to the record. */
  function PingLog(id: nat, target: Info, now: int, reached: bool): seq<Logged> {
    if reached then [Sends(id, target.(timestamp := now)), Inserts(id)] else []
  }

  lemma ShowsStep(log: seq<Logged>, e: Logged, id: nat, direct: Option<Info>, indirect: Option<Info>, flight: Option<Info>, l: Limits)
    requires Shows(log, id, direct, indirect, flight, l)
    ensures Seen(e, id) == [] ==> Shows(log + [e], id, direct, indirect, flight, l)
    ensures Seen(e, id) != [] && Enabled(Replay(Of(log, id), l), Seen(e, id)[0]) ==>
      var w := Step(Replay(Of(log, id), l), Seen(e, id)[0], |Of(log, id)|, l);
      Shows(log + [e], id, InfoOf(w.direct), InfoOf(w.indirect), InfoOf(w.flight), l)
  {
    OfAppend(log, e, id);
    if Seen(e, id) == [] {
      assert Of(log, id) + [] == Of(log, id);
    } else if Enabled(Replay(Of(log, id), l), Seen(e, id)[0]) {
      StepPossible(Of(log, id), Seen(e, id)[0], l);
      assert Seen(e, id) == [Seen(e, id)[0]];
    }
  }

  /** The check of the tables is, member by member, the check of its events. */
  lemma ShowsCheck(log: seq<Logged>, now: int, suspicion: bool, id: nat, direct: Infos, indirect: Infos, l: Limits)
    requires Shows(log, id, Entry(direct, id), Entry(indirect, id), None, l)
    ensures Shows(log + [Checks(now, suspicion)], id, DirectNext(direct, id, now, l), IndirectFinal(direct, indirect, id, now, l), None, l)
  {
    ShowsStep(log, Checks(now, suspicion), id, Entry(direct, id), Entry(indirect, id), None, l);
  }

  lemma ShownAfterCheck(log: seq<Logged>, now: int, suspicion: bool, direct: Infos, indirect: Infos, direct': Infos, indirect': Infos, l: Limits)
    requires AllShown(log, direct, indirect, None, l)
    requires forall id :: Entry(direct', id) == DirectNext(direct, id, now, l)
    requires forall id :: Entry(indirect', id) == IndirectFinal(direct, indirect, id, now, l)
    ensures AllShown(log + [Checks(now, suspicion)], direct', indirect', None, l)
  {
    forall id: nat
      ensures Shows(log + [Checks(now, suspicion)], id, Entry(direct', id), Entry(indirect', id), None, l)
    {
      assert Shows(log, id, Entry(direct, id), Entry(indirect, id), None, l);
      ShowsCheck(log, now, suspicion, id, direct, indirect, l);
    }
  }

  lemma ShownAfterSend(log: seq<Logged>, to: nat, info: Info, direct: Infos, indirect: Infos, l: Limits)
    requires AllShown(log, direct, indirect, None, l) && info.state != Failed
    ensures AllShown(log + [Sends(to, info)], direct, indirect, Some((to, info)), l)
  {
    forall id: nat
      ensures Shows(log + [Sends(to, info)], id, Entry(direct, id), Entry(indirect, id), FlightTo(Some((to, info)), id), l)
    {
      assert Shows(log, id, Entry(direct, id), Entry(indirect, id), None, l);
      ShowsStep(log, Sends(to, info), id, Entry(direct, id), Entry(indirect, id), None, l);
    }
  }

  lemma ShownAfterInsert(log: seq<Logged>, to: nat, info: Info, direct: Infos, indirect: Infos, l: Limits)
    requires AllShown(log, direct, indirect, Some((to, info)), l)
    ensures AllShown(log + [Inserts(to)], direct[to := info], indirect, None, l)
  {
    forall id: nat
      ensures Shows(log + [Inserts(to)], id, Entry(direct[to := info], id), Entry(indirect, id), None, l)
    {
      assert Shows(log, id, Entry(direct, id), Entry(indirect, id), FlightTo(Some((to, info)), id), l);
      ShowsStep(log, Inserts(to), id, Entry(direct, id), Entry(indirect, id), FlightTo(Some((to, info)), id), l);
    }
  }

  lemma EntryWithout(m: Infos, of: nat, id: nat)
    ensures Entry(m - {of}, id) == if id == of then None else Entry(m, id)
  {}

  lemma PongLeaves(w: Wait, k: nat, l: Limits)
    ensures Enabled(w, Pong)
    ensures var w' := Step(w, Pong, k, l);
      InfoOf(w'.direct) == None && InfoOf(w'.indirect) == None && InfoOf(w'.flight) == InfoOf(w.flight)
  {}

  lemma ShowsPong(log: seq<Logged>, of: nat, id: nat, direct: Option<Info>, indirect: Option<Info>, flight: Option<Info>, l: Limits)
    requires Shows(log, id, direct, indirect, flight, l)
    ensures if id == of then Shows(log + [Pongs(of)], id, None, None, flight, l)
            else Shows(log + [Pongs(of)], id, direct, indirect, flight, l)
  {
    PongLeaves(Replay(Of(log, id), l), |Of(log, id)|, l);
    ShowsStep(log, Pongs(of), id, direct, indirect, flight, l);
  }

  lemma ShownAfterPong(log: seq<Logged>, of: nat, direct: Infos, indirect: Infos, flight: Option<(nat, Info)>, l: Limits)
    requires AllShown(log, direct, indirect, flight, l)
    ensures AllShown(log + [Pongs(of)], direct - {of}, indirect - {of}, flight, l)
  {
    forall id: nat
      ensures Shows(log + [Pongs(of)], id, Entry(direct - {of}, id), Entry(indirect - {of}, id), FlightTo(flight, id), l)
    {
      EntryWithout(direct, of, id);
      EntryWithout(indirect, of, id);
      assert Shows(log, id, Entry(direct, id), Entry(indirect, id), FlightTo(flight, id), l);
      ShowsPong(log, of, id, Entry(direct, id), Entry(indirect, id), FlightTo(flight, id), l);
    }
  }

  // ---------- entry by entry ----------

  function JudgedInfo(i: Option<Info>, verdict: MemberState, now: int, suspicion: bool): Option<Info> {
    match i
    case None => None
    case Some(info) =>
      if info.state == Failed then i else Some(info.(timestamp := now, state := Verdict(verdict, suspicion)))
  }

  /** Of the entries in `done` the expired ones, each once, are to be asked about. */
  ghost predicate Requested(direct: Infos, done: set<nat>, toRequest: seq<Info>, ids: seq<nat>, now: int, l: Limits) {
    && Distinct(ids) && |toRequest| == |ids|
    && (forall id :: id in ids <==> id in direct && id in done && Expired(direct[id], now, l.pingFail))
    && (forall k :: 0 <= k < |ids| ==> ids[k] in direct && toRequest[k] == direct[ids[k]].(timestamp := now))
  }

  lemma RequestedNext(direct: Infos, done: set<nat>, toRequest: seq<Info>, ids: seq<nat>, id: nat, now: int, l: Limits)
    requires Requested(direct, done, toRequest, ids, now, l) && id in direct && id !in done
    ensures if Expired(direct[id], now, l.pingFail)
      then Requested(direct, done + {id}, toRequest + [direct[id].(timestamp := now)], ids + [id], now, l)
      else Requested(direct, done + {id}, toRequest, ids, now, l)
  {}

  /** The tables after all entries but those in `left` have been checked. */
  ghost predicate Swept(direct: Infos, indirect: Infos, direct': Infos, indirect': Infos, left: set<nat>, now: int, l: Limits) {
    && (forall id :: Entry(direct', id) == if id in left then Entry(direct, id) else DirectNext(direct, id, now, l))
    && (forall id :: Entry(indirect', id)
          == if id in left then Entry(indirect, id) else MovedNext(direct, Entry(indirect, id), id, now, l))
  }

  lemma SweptAt(direct: Infos, indirect: Infos, direct': Infos, indirect': Infos, left: set<nat>, id: nat, now: int, l: Limits)
    requires Swept(direct, indirect, direct', indirect', left, now, l) && id in left && id in direct
    ensures id in direct' && direct'[id] == direct[id]
    ensures if Expired(direct[id], now, l.pingFail)
      then Swept(direct, indirect, direct' - {id}, indirect'[id := direct[id].(timestamp := now)], left - {id}, now, l)
      else Swept(direct, indirect, direct', indirect', left - {id}, now, l)
  {
    assert Entry(direct', id) == Entry(direct, id);
    assert Entry(indirect', id) == Entry(indirect, id);
  }

  /** The list after the node's own heartbeat. */
  function Beaten(m: Infos, id: nat, now: int): Infos {
    if id in m then m[id := m[id].(timestamp := now, counter := m[id].counter + 1)] else m
  }

  function Cleaned(i: Option<Info>, now: int, Tcleanup: int): Option<Info> {
    if i.Some? && i.value.state == Failed && now - i.value.timestamp > Tcleanup then None else i
  }

  /** A direct entry after the check. */
  function DirectNext(waits: Infos, id: nat, now: int, l: Limits): Option<Info> {
    if id in waits && !Expired(waits[id], now, l.pingFail) then Some(waits[id]) else None
  }

  /** An indirect entry after the expired direct ones have moved in. */
  function MovedNext(direct: Infos, i: Option<Info>, id: nat, now: int, l: Limits): Option<Info> {
    if id in direct && Expired(direct[id], now, l.pingFail) then Some(direct[id].(timestamp := now)) else i
  }

  /** An indirect entry at the end of a step. */
  function IndirectFinal(direct: Infos, indirect: Infos, id: nat, now: int, l: Limits): Option<Info> {
    MovedNext(direct, IndirectNext(indirect, id, now, l), id, now, l)
  }

  /** An indirect entry after the check. */
  function IndirectNext(waits: Infos, id: nat, now: int, l: Limits): Option<Info> {
    if id in waits then IndirectAfter(waits[id], now, l) else None
  }

  /** A member's entry in the list after the check. */
  function JudgedNext(infos: Infos, waits: Infos, id: nat, now: int, suspicion: bool, l: Limits): Option<Info> {
    if id in waits && Expired(waits[id], now, l.pingReqFail) && waits[id].state != Failed
    then JudgedInfo(Entry(infos, id), NextVerdict(waits[id]), now, suspicion)
    else Entry(infos, id)
  }

  /** The member is failed in the list by a check exactly if it was not before and its events say so. */
  lemma FailsIffEventsSay(log: seq<Logged>, id: nat, infos: Infos, direct: Infos, indirect: Infos, now: int, suspicion: bool, after: Infos, l: Limits)
    requires AllShown(log, direct, indirect, None, l)
    requires Entry(after, id) == JudgedNext(infos, indirect, id, now, suspicion, l)
    ensures Fails(infos, after, id) <==>
      id in infos && infos[id].state != Failed && FailsAt(Of(log + [Checks(now, suspicion)], id), |Of(log, id)|, l)
  {
    var events := Of(log, id);
    assert Shows(log, id, Entry(direct, id), Entry(indirect, id), None, l);
    OfAppend(log, Checks(now, suspicion), id);
    assert (events + [Check(now, suspicion)])[..|events|] == events;
    if id in infos {
      assert id in after;
    }
  }

  class Swim {
    const membership: Membership
    const limits: Limits
    const hashInfo: Info -> nat
    var waitAcksDirect: Infos
    var waitAcksIndirect: Infos
    ghost var log: seq<Logged>
    ghost var flight: Option<(nat, Info)>

    /** Every entry is what the member's events leave. */
    ghost predicate Valid()
      reads this, membership
    {
      membership.Valid() && AllShown(log, waitAcksDirect, waitAcksIndirect, flight, limits)
    }

    constructor (membership: Membership, limits: Limits, hashInfo: Info -> nat)
      requires membership.Valid()
      ensures Valid() && log == [] && flight == None && waitAcksDirect == map[] && waitAcksIndirect == map[]
      ensures this.membership == membership && this.limits == limits && this.hashInfo == hashInfo
    {
      this.membership, this.limits, this.hashInfo := membership, limits, hashInfo;
      waitAcksDirect, waitAcksIndirect := map[], map[];
      log, flight := [], None;
      NothingShown(limits);
    }

    // ---------- checking the tables ----------

    /** Hands the verdict on one expired indirect entry to the list. */
    method JudgeOne(id: nat, now: int, suspicion: bool, draw: nat -> nat)
      requires membership.Valid() && id in waitAcksIndirect && Expired(waitAcksIndirect[id], now, limits.pingReqFail)
      modifies this`waitAcksIndirect, membership
      ensures membership.Valid()
      ensures Entry(waitAcksIndirect, id) == IndirectAfter(old(waitAcksIndirect)[id], now, limits)
      ensures forall o :: o != id ==> Entry(waitAcksIndirect, o) == Entry(old(waitAcksIndirect), o)
      ensures Entry(membership.infoMap, id) == JudgedNext(old(membership.infoMap), old(waitAcksIndirect), id, now, suspicion, limits)
      ensures forall o :: o != id ==> Entry(membership.infoMap, o) == old(Entry(membership.infoMap, o))
    {
      var info := waitAcksIndirect[id];
      match info.state {
        case Alive =>
          var _ := membership.UpdateStateSwim(now, id, Suspected, suspicion, draw);
          waitAcksIndirect := waitAcksIndirect[id := info.(timestamp := now, state := Suspected)];
        case Suspected =>
          var _ := membership.UpdateStateSwim(now, id, Failed, suspicion, draw);
          waitAcksIndirect := waitAcksIndirect - {id};
        case Failed =>
      }
    }

    /** Goes through the indirect entries: the expired ones are judged, the others stay. */
    method CheckIndirect(now: int, suspicion: bool, draw: nat -> nat)
      requires membership.Valid()
      modifies this`waitAcksIndirect, membership
      ensures membership.Valid()
      ensures forall id :: Entry(waitAcksIndirect, id) == IndirectNext(old(waitAcksIndirect), id, now, limits)
      ensures forall id ::
        Entry(membership.infoMap, id) == JudgedNext(old(membership.infoMap), old(waitAcksIndirect), id, now, suspicion, limits)
    {
      var left := waitAcksIndirect.Keys;
      ghost var waits, infos := waitAcksIndirect, membership.infoMap;
      while left != {}
        invariant membership.Valid() && left <= waits.Keys
        invariant forall id :: Entry(waitAcksIndirect, id) == if id in left then Entry(waits, id) else IndirectNext(waits, id, now, limits)
        invariant forall id ::
          Entry(membership.infoMap, id) == if id in left then Entry(infos, id) else JudgedNext(infos, waits, id, now, suspicion, limits)
        decreases |left|
      {
        var id :| id in left;
        assert Entry(waitAcksIndirect, id) == Some(waits[id]);
        if Expired(waitAcksIndirect[id], now, limits.pingReqFail) {
          JudgeOne(id, now, suspicion, draw);
        }
        left := left - {id};
      }
    }

    /** Moves the expired direct entries to the indirect table, where they wait for pongs to requests
        sent through others. */
    method CheckDirect(now: int) returns (toRequest: seq<Info>, ghost ids: seq<nat>)
      modifies this`waitAcksDirect, this`waitAcksIndirect
      ensures forall id :: Entry(waitAcksDirect, id) == DirectNext(old(waitAcksDirect), id, now, limits)
      ensures forall id ::
        Entry(waitAcksIndirect, id) == MovedNext(old(waitAcksDirect), Entry(old(waitAcksIndirect), id), id, now, limits)
      ensures Requested(old(waitAcksDirect), old(waitAcksDirect).Keys, toRequest, ids, now, limits)
    {
      toRequest, ids := [], [];
      var left := waitAcksDirect.Keys;
      ghost var direct, indirect := waitAcksDirect, waitAcksIndirect;
      assert direct.Keys - left == {};
      while left != {}
        invariant left <= direct.Keys
        invariant Swept(direct, indirect, waitAcksDirect, waitAcksIndirect, left, now, limits)
        invariant Requested(direct, direct.Keys - left, toRequest, ids, now, limits)
        decreases |left|
      {
        var id :| id in left;
        toRequest, ids := CheckDirectOne(direct, indirect, left, id, now, toRequest, ids);
        left := left - {id};
      }
      assert direct.Keys - left == direct.Keys;
    }

    method CheckDirectOne(ghost direct: Infos, ghost indirect: Infos, ghost left: set<nat>, id: nat, now: int,
                          asked: seq<Info>, ghost askedIds: seq<nat>)
      returns (toRequest: seq<Info>, ghost ids: seq<nat>)
      requires left <= direct.Keys && id in left
      requires Swept(direct, indirect, waitAcksDirect, waitAcksIndirect, left, now, limits)
      requires Requested(direct, direct.Keys - left, asked, askedIds, now, limits)
      modifies this`waitAcksDirect, this`waitAcksIndirect
      ensures Swept(direct, indirect, waitAcksDirect, waitAcksIndirect, left - {id}, now, limits)
      ensures Requested(direct, direct.Keys - (left - {id}), toRequest, ids, now, limits)
    {
      SweptAt(direct, indirect, waitAcksDirect, waitAcksIndirect, left, id, now, limits);
      RequestedNext(direct, direct.Keys - left, asked, askedIds, id, now, limits);
      assert direct.Keys - (left - {id}) == direct.Keys - left + {id};
      toRequest, ids := asked, askedIds;
      var info := waitAcksDirect[id];
      if Expired(info, now, limits.pingFail) {
        waitAcksDirect := waitAcksDirect - {id};
        info := info.(timestamp := now);
        waitAcksIndirect := waitAcksIndirect[id := info];
        toRequest, ids := asked + [info], askedIds + [id];
      }
    }

    /** The locked section at the start of a period. A member is failed by it exactly as its events say. */
    method CheckTables(now: int, suspicion: bool, draw: nat -> nat) returns (toRequest: seq<Info>, ghost ids: seq<nat>)
      requires Valid() && flight == None
      modifies this, membership
      ensures Valid() && flight == None && log == old(log) + [Checks(now, suspicion)]
      ensures forall id :: Entry(waitAcksDirect, id) == DirectNext(old(waitAcksDirect), id, now, limits)
      ensures forall id ::
        Entry(waitAcksIndirect, id) == IndirectFinal(old(waitAcksDirect), old(waitAcksIndirect), id, now, limits)
      ensures forall id ::
        Entry(membership.infoMap, id) == JudgedNext(old(membership.infoMap), old(waitAcksIndirect), id, now, suspicion, limits)
      ensures forall id: nat :: Fails(old(membership.infoMap), membership.infoMap, id) <==>
        id in old(membership.infoMap) && old(membership.infoMap)[id].state != Failed
        && FailsAt(Of(log, id), |Of(old(log), id)|, limits)
      ensures Requested(old(waitAcksDirect), old(waitAcksDirect).Keys, toRequest, ids, now, limits)
    {
      ghost var direct, indirect, infos := waitAcksDirect, waitAcksIndirect, membership.infoMap;
      CheckIndirect(now, suspicion, draw);
      toRequest, ids := CheckDirect(now);
      ShownAfterCheck(log, now, suspicion, direct, indirect, waitAcksDirect, waitAcksIndirect, limits);
      forall id: nat
        ensures Fails(infos, membership.infoMap, id) <==>
          id in infos && infos[id].state != Failed && FailsAt(Of(log + [Checks(now, suspicion)], id), |Of(log, id)|, limits)
      {
        FailsIffEventsSay(log, id, infos, direct, indirect, now, suspicion, membership.infoMap, limits);
      }
      log := log + [Checks(now, suspicion)];
    }

    // ---------- requests through others ----------

    /** Picks the `k` members that are asked to ping on this node's behalf. */
    method SendPingReq(k: nat, draw: nat -> nat) returns (ok: bool, forwarders: seq<Info>)
      requires Valid()
      modifies membership`members, membership`roundRobinIndex
      ensures Valid()
      ensures ok <==> k == 0 || old(membership.members) != []
      ensures membership.members == [] <==> old(membership.members) == []
      ensures ok ==> |forwarders| == k
      ensures forall i :: 0 <= i < |forwarders| ==> forwarders[i].state != Failed
    {
      forwarders := [];
      var i := 0;
      while i < k
        invariant 0 <= i <= k == k && |forwarders| == i && Valid()
        invariant membership.members == [] <==> old(membership.members) == []
        invariant i > 0 ==> old(membership.members) != []
        invariant forall j :: 0 <= j < |forwarders| ==> forwarders[j].state != Failed
      {
        var target, _ := membership.GetTarget(draw);
        if target.Err? {
          return false, forwarders;
        }
        forwarders := forwarders + [target.value];
        i := i + 1;
      }
      ok := true;
    }

    /** For each of the moved entries `k` members are asked; that fails only if there are none. */
    method Request(toRequest: seq<Info>, k: nat, draw: nat -> nat) returns (sent: bool, forwarders: seq<seq<Info>>)
      requires Valid()
      modifies membership`members, membership`roundRobinIndex
      ensures Valid()
      ensures sent <==> toRequest == [] || k == 0 || old(membership.members) != []
      ensures sent ==> |forwarders| == |toRequest|
      ensures forall i :: 0 <= i < |forwarders| ==> |forwarders[i]| == k
    {
      sent, forwarders := true, [];
      var i := 0;
      while i < |toRequest|
        invariant 0 <= i == |forwarders| <= |toRequest| && sent && Valid()
        invariant membership.members == [] <==> old(membership.members) == []
        invariant i > 0 ==> k == 0 || old(membership.members) != []
        invariant forall j :: 0 <= j < |forwarders| ==> |forwarders[j]| == k
      {
        var ok, asked := SendPingReq(k, draw);
        if !ok {
          sent := false;
          return;
        }
        forwarders := forwarders + [asked];
        i := i + 1;
      }
    }

    // ---------- pings and pongs ----------

    /** Chooses a target and sends it a ping; `reached` tells whether that was possible. The entry is not
        made yet. */
    method SendPing(now: int, reached: bool, draw: nat -> nat) returns (r: Result<Info>)
      requires Valid() && flight == None
      modifies this, membership`members, membership`roundRobinIndex
      ensures Valid()
      ensures r.Err? <==> old(membership.members) == []
      ensures r.Ok? ==> r.value.state != Failed
      ensures waitAcksDirect == old(waitAcksDirect) && waitAcksIndirect == old(waitAcksIndirect)
      ensures if r.Ok? && reached
        then flight == Some((hashInfo(r.value), r.value.(timestamp := now)))
             && log == old(log) + [Sends(hashInfo(r.value), r.value.(timestamp := now))]
        else flight == None && log == old(log)
    {
      var target, _ := membership.GetTarget(draw);
      r := target;
      if target.Ok? && reached {
        ghost var to, info := hashInfo(target.value), target.value.(timestamp := now);
        ShownAfterSend(log, to, info, waitAcksDirect, waitAcksIndirect, limits);
        flight := Some((to, info));
        log := log + [Sends(to, info)];
      }
    }

    /** The locked section after the ping: its target is waited for from now on. */
    method InsertPing(target: Info, now: int)
      requires Valid() && flight == Some((hashInfo(target), target.(timestamp := now)))
      modifies this
      ensures Valid() && flight == None && log == old(log) + [Inserts(hashInfo(target))]
      ensures waitAcksDirect == old(waitAcksDirect)[hashInfo(target) := target.(timestamp := now)]
      ensures waitAcksIndirect == old(waitAcksIndirect)
    {
      var targetId := hashInfo(target);
      ShownAfterInsert(log, targetId, target.(timestamp := now), waitAcksDirect, waitAcksIndirect, limits);
      waitAcksDirect := waitAcksDirect[targetId := target.(timestamp := now)];
      flight := None;
      log := log + [Inserts(targetId)];
    }

    /** The locked section of a pong to an own ping: the waiting for its sender ends in both tables. A
        ping in flight has no entry yet that could be taken out. */
    method Answered(senderId: nat)
      requires Valid()
      modifies this
      ensures Valid() && flight == old(flight) && log == old(log) + [Pongs(senderId)]
      ensures waitAcksDirect == old(waitAcksDirect) - {senderId}
      ensures waitAcksIndirect == old(waitAcksIndirect) - {senderId}
    {
      ShownAfterPong(log, senderId, waitAcksDirect, waitAcksIndirect, flight, limits);
      if senderId in waitAcksDirect {
        waitAcksDirect := waitAcksDirect - {senderId};
      }
      if senderId in waitAcksIndirect {
        waitAcksIndirect := waitAcksIndirect - {senderId};
      }
      assert waitAcksDirect == old(waitAcksDirect) - {senderId};
      assert waitAcksIndirect == old(waitAcksIndirect) - {senderId};
      log := log + [Pongs(senderId)];
    }

    /** A pong arrives: its information is merged; a pong to an own ping ends the waiting for its
        sender; another one is passed on. */
    method HandlePong(memberInfo: Infos, sender: Info, target: Info, requester: Info, now: int, draw: nat -> nat)
      returns (passOn: bool)
      requires Valid()
      modifies this, membership
      ensures Valid() && flight == old(flight)
      ensures IsMerged(old(membership.infoMap), memberInfo, now, membership.infoMap)
      ensures passOn <==> hashInfo(requester) != hashInfo(target)
      ensures passOn ==> waitAcksDirect == old(waitAcksDirect) && waitAcksIndirect == old(waitAcksIndirect) && log == old(log)
      ensures !passOn ==>
        && waitAcksDirect == old(waitAcksDirect) - {hashInfo(sender)}
        && waitAcksIndirect == old(waitAcksIndirect) - {hashInfo(sender)}
        && log == old(log) + [Pongs(hashInfo(sender))]
    {
      var _ := membership.Merge(memberInfo, now, draw);
      var senderId := hashInfo(sender);
      passOn := hashInfo(requester) != hashInfo(target);
      if !passOn {
        Answered(senderId);
      }
    }

    // ---------- a period ----------

    /** One protocol period with nothing in between. Fails, ending the node, if it is considered failed
        itself or has nobody to ping. */
    method SwimStep(myId: nat, k: nat, now: int, Tcleanup: int, suspicion: bool, reached: bool, draw: nat -> nat)
      returns (r: Result<Info>)
      requires Valid() && flight == None
      modifies this, membership
      ensures Valid() && old(log) <= log && flight == None
      ensures r.Ok? ==> forall id ::
        Entry(waitAcksIndirect, id) == IndirectFinal(old(waitAcksDirect), old(waitAcksIndirect), id, now, limits)
      ensures r.Ok? ==> r.value.state != Failed
      ensures r.Ok? ==> forall id ::
        Entry(membership.infoMap, id) ==
          Cleaned(JudgedNext(Beaten(old(membership.infoMap), myId, now), old(waitAcksIndirect), id, now, suspicion, limits), now, Tcleanup)
      ensures r.Ok? ==> log == old(log) + [Checks(now, suspicion)] + PingLog(hashInfo(r.value), r.value, now, reached)
      ensures r.Ok? ==> forall id ::
        Entry(waitAcksDirect, id) == if reached && id == hashInfo(r.value) then Some(r.value.(timestamp := now))
                                     else DirectNext(old(waitAcksDirect), id, now, limits)
    {
      var begun := BeginPeriod(myId, k, now, Tcleanup, suspicion, draw);
      if begun.Err? {
        return Err(begun.message);
      }
      r := PingNext(now, reached, draw);
    }

    /** The period up to its ping, with nothing in between. */
    method BeginPeriod(myId: nat, k: nat, now: int, Tcleanup: int, suspicion: bool, draw: nat -> nat) returns (r: Result<()>)
      requires Valid() && flight == None
      modifies this, membership
      ensures Valid() && old(log) <= log && flight == None
      ensures r.Ok? ==> log == old(log) + [Checks(now, suspicion)]
      ensures r.Ok? ==> forall id ::
        Entry(waitAcksIndirect, id) == IndirectFinal(old(waitAcksDirect), old(waitAcksIndirect), id, now, limits)
      ensures r.Ok? ==> forall id :: Entry(waitAcksDirect, id) == DirectNext(old(waitAcksDirect), id, now, limits)
      ensures r.Ok? ==> forall id ::
        Entry(membership.infoMap, id) ==
          Cleaned(JudgedNext(Beaten(old(membership.infoMap), myId, now), old(waitAcksIndirect), id, now, suspicion, limits), now, Tcleanup)
    {
      var alive := membership.Heartbeat(myId, now);
      if alive.Err? {
        return Err(alive.message);
      }
      var sent := CheckAndAsk(now, k, suspicion, draw);
      if !sent {
        return Err("no member to ask");
      }
      membership.Cleanup(now, Tcleanup);
      r := Ok(());
    }

    /** The check, and the requests for the entries that moved. */
    method CheckAndAsk(now: int, k: nat, suspicion: bool, draw: nat -> nat) returns (sent: bool)
      requires Valid() && flight == None
      modifies this, membership
      ensures Valid() && flight == None && log == old(log) + [Checks(now, suspicion)]
      ensures forall id :: Entry(waitAcksDirect, id) == DirectNext(old(waitAcksDirect), id, now, limits)
      ensures forall id ::
        Entry(waitAcksIndirect, id) == IndirectFinal(old(waitAcksDirect), old(waitAcksIndirect), id, now, limits)
      ensures forall id ::
        Entry(membership.infoMap, id) == JudgedNext(old(membership.infoMap), old(waitAcksIndirect), id, now, suspicion, limits)
    {
      var toRequest, _ := CheckTables(now, suspicion, draw);
      var asked;
      sent, asked := Request(toRequest, k, draw);
    }

    /** The ping and its entry with nothing in between. */
    method PingNext(now: int, reached: bool, draw: nat -> nat) returns (r: Result<Info>)
      requires Valid() && flight == None
      modifies this, membership`members, membership`roundRobinIndex
      ensures Valid() && flight == None && waitAcksIndirect == old(waitAcksIndirect)
      ensures r.Err? ==> log == old(log)
      ensures r.Ok? ==> r.value.state != Failed && log == old(log) + PingLog(hashInfo(r.value), r.value, now, reached)
      ensures waitAcksDirect == if r.Ok? && reached then old(waitAcksDirect)[hashInfo(r.value) := r.value.(timestamp := now)]
                                else old(waitAcksDirect)
    {
      r := SendPing(now, reached, draw);
      if r.Ok? && reached {
        InsertPing(r.value, now);
      }
    }
  }

  // ---------- every interleaving ----------

  /** One after the other the sections of the periods run; in between, information from others is merged
      and pongs to own pings are handled. */
  datatype Happening =
    | NextSection
    | InfoArrives(memberInfo: Infos, time: int)
    | PongArrives(sender: Info)

  datatype Period = Period(myId: nat, k: nat, now: int, Tcleanup: int, suspicion: bool, reached: bool)

  /** What a period does next. */
  datatype Section = Beat | CheckWaits | Ask(toRequest: seq<Info>) | CleanUp | Ping | Enter(target: Info)

  /** A ping is in flight exactly while its entry is the next section. */
  ghost predicate AtSection(swim: Swim, section: Section, p: Period)
    reads swim
  {
    swim.flight == match section
      case Enter(target) => Some((swim.hashInfo(target), target.(timestamp := p.now)))
      case _ => None
  }

  /** Runs the next section of a period, or ends the node. */
  method RunSection(swim: Swim, section: Section, p: Period, draw: nat -> nat) returns (next: Option<Section>)
    requires swim.Valid() && AtSection(swim, section, p)
    modifies swim, swim.membership
    ensures swim.Valid() && old(swim.log) <= swim.log
    ensures next.Some? && next.value != Beat ==> AtSection(swim, next.value, p)
    ensures next == Some(Beat) ==> swim.flight == None
  {
    match section
    case Beat =>
      var alive := swim.membership.Heartbeat(p.myId, p.now);
      next := if alive.Ok? then Some(CheckWaits) else None;
    case CheckWaits =>
      var toRequest, _ := swim.CheckTables(p.now, p.suspicion, draw);
      next := Some(Ask(toRequest));
    case Ask(toRequest) =>
      var sent, _ := swim.Request(toRequest, p.k, draw);
      next := if sent then Some(CleanUp) else None;
    case CleanUp =>
      swim.membership.Cleanup(p.now, p.Tcleanup);
      next := Some(Section.Ping);
    case Ping =>
      var target := swim.SendPing(p.now, p.reached, draw);
      next := if target.Err? then None else if p.reached then Some(Enter(target.value)) else Some(Beat);
    case Enter(target) =>
      swim.InsertPing(target, p.now);
      next := Some(Beat);
  }

  /** Every verdict of failure on a member rests on a ping as described at VerdictRestsOnPing, and all of
      them are justified if no pong from it was handled while a ping to it was in flight. */
  ghost predicate VerdictsExplained(log: seq<Logged>, l: Limits) {
    forall id: nat {:trigger Of(log, id)} ::
      && (forall k: nat :: FailsAt(Of(log, id), k, l) ==> RestsOnPing(Of(log, id), k, l))
      && (NoEarlyPong(Of(log, id), l) ==> AllJustified(Of(log, id), l))
  }

  lemma ValidExplains(swim: Swim)
    requires swim.Valid()
    ensures VerdictsExplained(swim.log, swim.limits)
  {
    forall id: nat
      ensures forall k: nat :: FailsAt(Of(swim.log, id), k, swim.limits) ==> RestsOnPing(Of(swim.log, id), k, swim.limits)
      ensures NoEarlyPong(Of(swim.log, id), swim.limits) ==> AllJustified(Of(swim.log, id), swim.limits)
    {
      var events := Of(swim.log, id);
      assert Possible(events, swim.limits);
      forall k: nat | FailsAt(events, k, swim.limits) ensures RestsOnPing(events, k, swim.limits) {
        VerdictRestsOnPing(events, k, swim.limits);
      }
      if NoEarlyPong(events, swim.limits) {
        NoEarlyPongJustifies(events, swim.limits);
      }
    }
  }

  /** Whatever periods a node goes through, with information and pongs arriving between any two of their
      sections and at any times. */
  method Live(swim: Swim, periods: seq<Period>, happenings: seq<Happening>, draw: nat -> nat)
    requires swim.Valid() && swim.flight == None
    modifies swim, swim.membership
    ensures swim.Valid() && old(swim.log) <= swim.log
    ensures VerdictsExplained(swim.log, swim.limits)
  {
    var i, p, section := 0, 0, Beat;
    while i < |happenings|
      invariant swim.Valid() && old(swim.log) <= swim.log
      invariant 0 <= p <= |periods|
      invariant if p < |periods| then AtSection(swim, section, periods[p]) else swim.flight == None
    {
      match happenings[i] {
        case NextSection =>
          if p < |periods| {
            var next := RunSection(swim, section, periods[p], draw);
            if next.None? {
              break;
            }
            section := next.value;
            if section == Beat {
              p := p + 1;
            }
          }
        case InfoArrives(memberInfo, time) =>
          var _ := swim.membership.Merge(memberInfo, time, draw);
        case PongArrives(sender) =>
          swim.Answered(swim.hashInfo(sender));
      }
      i := i + 1;
    }
    ValidExplains(swim);
  }
}
