/** What the wait tables of the SWIM failure detector (section 4 of the paper by Das, Gupta and
    Motivala, 2002) do to one member, event by event, and when a verdict of failure is justified. */
module SwimTrace {
  import opened Maybe
  import opened MemberInfo
  import opened MembershipList

  datatype Limits = Limits(pingFail: nat, pingReqFail: nat)

  /** What happens to one member: the tables are checked, it is sent a ping, that ping is entered into
      the tables, and a pong from it is handled. Each of these is done under the lock, or needs none;
      between any two of them anything else may happen. */
  datatype Event =
    | Check(now: int, suspicion: bool)
    | Send(info: Info)
    | Insert
    | Pong

  /** A ping: what the node knew of the member when it was sent, stamped with the clock reading of the
      period; in the indirect table the stamp and the state change. `sent` and `put` are the places of
      its two events, and `answered` tells whether a pong was handled in between. */
  datatype Ping = Ping(info: Info, sent: nat, put: nat, answered: bool)

  /** A member's entries in the two tables, and the ping on its way that has none yet. */
  datatype Wait = Wait(direct: Option<Ping>, indirect: Option<Ping>, flight: Option<Ping>)

  // ---------- what a check makes of an entry ----------

  predicate Expired(i: Info, now: int, limit: int) {
    now - i.timestamp > limit
  }

  /** The verdict on an indirect entry: suspected first, then failed. */
  function NextVerdict(i: Info): MemberState {
    if i.state == Alive then Suspected else Failed
  }

  /** An expired indirect entry is suspected for another period, or gone. */
  function IndirectAfter(i: Info, now: int, l: Limits): Option<Info> {
    if !Expired(i, now, l.pingReqFail) then Some(i)
    else
      match i.state
      case Alive => Some(i.(timestamp := now, state := Suspected))
      case Suspected => None
      case Failed => Some(i)
  }

  function PingAfter(p: Option<Ping>, now: int, l: Limits): Option<Ping> {
    match p
    case None => None
    case Some(ping) =>
      match IndirectAfter(ping.info, now, l)
      case None => None
      case Some(i) => Some(ping.(info := i))
  }

  /** The check first judges the indirect entry; an expired direct one moves in after that. */
  function Checked(w: Wait, now: int, l: Limits): Wait {
    if w.direct.Some? && Expired(w.direct.value.info, now, l.pingFail)
    then w.(direct := None, indirect := Some(w.direct.value.(info := w.direct.value.info.(timestamp := now))))
    else w.(indirect := PingAfter(w.indirect, now, l))
  }

  // ---------- runs ----------

  predicate Enabled(w: Wait, e: Event) {
    match e
    case Check(_, _) => w.flight.None?
    case Send(info) => w.flight.None? && info.state != Failed
    case Insert => w.flight.Some?
    case Pong => true
  }

  function Step(w: Wait, e: Event, k: nat, l: Limits): Wait {
    match e
    case Check(now, _) => Checked(w, now, l)
    case Send(info) => w.(flight := Some(Ping(info, k, k, false)))
    case Insert =>
      if w.flight.Some? then w.(direct := Some(w.flight.value.(put := k)), flight := None) else w
    case Pong =>
      Wait(None, None, if w.flight.Some? then Some(w.flight.value.(answered := true)) else None)
  }

  function Replay(events: seq<Event>, l: Limits): Wait {
    if events == [] then Wait(None, None, None)
    else Step(Replay(events[..|events| - 1], l), events[|events| - 1], |events| - 1, l)
  }

  /** The tables before the event `k`. */
  function At(events: seq<Event>, k: nat, l: Limits): Wait
    requires k <= |events|
  {
    Replay(events[..k], l)
  }

  predicate EnabledAt(events: seq<Event>, k: nat, l: Limits)
    requires k < |events|
  {
    Enabled(At(events, k, l), events[k])
  }

  ghost predicate Possible(events: seq<Event>, l: Limits) {
    forall k: nat {:trigger EnabledAt(events, k, l)} :: k < |events| ==> EnabledAt(events, k, l)
  }

  /** The member is declared failed by the check at `k`. */
  predicate FailsAt(events: seq<Event>, k: nat, l: Limits) {
    && k < |events| && events[k].Check?
    && At(events, k, l).indirect.Some?
    && var i := At(events, k, l).indirect.value.info;
    && Expired(i, events[k].now, l.pingReqFail) && i.state != Failed
    && Verdict(NextVerdict(i), events[k].suspicion) == Failed
  }

  /** The ping the verdict at `k` rests on. */
  function Origin(events: seq<Event>, k: nat, l: Limits): Ping
    requires FailsAt(events, k, l)
  {
    At(events, k, l).indirect.value
  }

  predicate PongIn(events: seq<Event>, from: nat, to: nat) {
    exists j :: from < j < to && j < |events| && events[j].Pong?
  }

  /** Long enough after the ping for a verdict of failure. */
  predicate LateEnough(ping: Info, time: int, suspicion: bool, l: Limits) {
    time - ping.timestamp > l.pingFail + l.pingReqFail
    && (suspicion && ping.state == Alive ==> time - ping.timestamp > l.pingFail + 2 * l.pingReqFail)
  }

  /** The ping sent at `p` was not answered before the verdict at `k`, for long enough. */
  predicate JustifiedBy(events: seq<Event>, k: nat, p: nat, l: Limits) {
    && p < k < |events| && events[k].Check? && events[p].Send?
    && !PongIn(events, p, k)
    && LateEnough(events[p].info, events[k].now, events[k].suspicion, l)
  }

  ghost predicate Justified(events: seq<Event>, k: nat, l: Limits) {
    exists p: nat :: JustifiedBy(events, k, p, l)
  }

  ghost predicate AllJustified(events: seq<Event>, l: Limits) {
    forall k: nat :: FailsAt(events, k, l) ==> Justified(events, k, l)
  }

  /** The pong at `j` comes before the ping in flight has its entry. */
  predicate EarlyPong(events: seq<Event>, j: nat, l: Limits) {
    j < |events| && events[j].Pong? && At(events, j, l).flight.Some?
  }

  // ---------- the invariant ----------

  /** A ping in flight. */
  ghost predicate FlightOk(events: seq<Event>, p: Ping) {
    && p.sent < |events| && events[p.sent] == Send(p.info) && p.info.state != Failed
    && (p.answered <==> PongIn(events, p.sent, |events|))
  }

  /** A ping with an entry, which no pong has reached since. */
  ghost predicate EntryOk(events: seq<Event>, p: Ping) {
    && p.sent < p.put < |events| && events[p.sent].Send? && events[p.put].Insert?
    && p.info.state != Failed
    && (p.answered <==> PongIn(events, p.sent, p.put))
    && !PongIn(events, p.put, |events|)
  }

  /** The stamp of an indirect entry comes late enough after the ping. */
  ghost predicate HasWaited(events: seq<Event>, p: Ping, l: Limits)
    requires p.sent < |events| && events[p.sent].Send?
  {
    var ping := events[p.sent].info;
    && p.info.timestamp - ping.timestamp > l.pingFail
    && (p.info.state == Alive ==> ping.state == Alive)
    && (p.info.state == Suspected && ping.state == Alive ==>
          p.info.timestamp - ping.timestamp > l.pingFail + l.pingReqFail)
  }

  ghost predicate WaitOk(events: seq<Event>, w: Wait, l: Limits) {
    && (w.flight.Some? ==> FlightOk(events, w.flight.value))
    && (w.direct.Some? ==> EntryOk(events, w.direct.value) && w.direct.value.info == events[w.direct.value.sent].info)
    && (w.indirect.Some? ==> EntryOk(events, w.indirect.value) && HasWaited(events, w.indirect.value, l))
  }

  lemma PongInStep(events: seq<Event>, e: Event, from: nat, to: nat)
    requires to <= |events|
    ensures PongIn(events + [e], from, to) <==> PongIn(events, from, to)
    ensures PongIn(events + [e], from, |events| + 1) <==> PongIn(events, from, |events|) || (from < |events| && e.Pong?)
  {
    if PongIn(events, from, to) {
      var j :| from < j < to && j < |events| && events[j].Pong?;
      assert (events + [e])[j].Pong?;
    }
    if PongIn(events, from, |events|) {
      var j :| from < j < |events| && j < |events| && events[j].Pong?;
      assert (events + [e])[j].Pong?;
    }
    if from < |events| && e.Pong? {
      assert (events + [e])[|events|].Pong?;
    }
  }

  lemma EntryStays(events: seq<Event>, e: Event, p: Ping, l: Limits)
    requires EntryOk(events, p) && !e.Pong?
    ensures EntryOk(events + [e], p)
    ensures (events + [e])[p.sent] == events[p.sent]
    ensures HasWaited(events, p, l) <==> HasWaited(events + [e], p, l)
  {
    PongInStep(events, e, p.sent, p.put);
    PongInStep(events, e, p.put, |events|);
  }

  lemma FlightStays(events: seq<Event>, e: Event, p: Ping)
    requires FlightOk(events, p)
    ensures !e.Pong? ==> FlightOk(events + [e], p)
    ensures e.Pong? ==> FlightOk(events + [e], p.(answered := true))
  {
    PongInStep(events, e, p.sent, |events|);
  }

  lemma FlightLands(events: seq<Event>, p: Ping)
    requires FlightOk(events, p)
    ensures EntryOk(events + [Insert], p.(put := |events|)) && p.info == (events + [Insert])[p.sent].info
  {
    PongInStep(events, Insert, p.sent, |events|);
    PongInStep(events, Insert, |events|, |events|);
  }

  lemma StepKeepsOk(events: seq<Event>, w: Wait, e: Event, l: Limits)
    requires WaitOk(events, w, l) && Enabled(w, e)
    ensures WaitOk(events + [e], Step(w, e, |events|, l), l)
  {
    if w.flight.Some? {
      FlightStays(events, e, w.flight.value);
    }
    if !e.Pong? {
      if w.direct.Some? {
        EntryStays(events, e, w.direct.value, l);
      }
      if w.indirect.Some? {
        EntryStays(events, e, w.indirect.value, l);
      }
    }
    match e
    case Check(now, _) => {
      assert WaitOk(events + [e], w, l);
      CheckKeepsOk(events + [e], w, now, l);
    }
    case Send(info) => PongInStep(events, e, |events|, |events|);
    case Insert => FlightLands(events, w.flight.value);
    case Pong => {}
  }

  lemma CheckKeepsOk(events: seq<Event>, w: Wait, now: int, l: Limits)
    requires WaitOk(events, w, l)
    ensures WaitOk(events, Checked(w, now, l), l)
  {}

  lemma {:induction false} RunsAreOk(events: seq<Event>, l: Limits)
    requires Possible(events, l)
    ensures WaitOk(events, Replay(events, l), l)
  {
    if events == [] {
    } else {
      var before, e := events[..|events| - 1], events[|events| - 1];
      PrefixPossible(events, |events| - 1, l);
      RunsAreOk(before, l);
      assert EnabledAt(events, |events| - 1, l);
      assert events == before + [e];
      StepKeepsOk(before, Replay(before, l), e, l);
    }
  }

  lemma PrefixPossible(events: seq<Event>, k: nat, l: Limits)
    requires Possible(events, l) && k <= |events|
    ensures Possible(events[..k], l)
  {
    forall j: nat | j < k ensures EnabledAt(events[..k], j, l) {
      assert events[..k][..j] == events[..j];
      assert EnabledAt(events, j, l);
    }
  }

  // ---------- every verdict ----------

  lemma PongInPrefix(events: seq<Event>, k: nat, from: nat, to: nat)
    requires to <= k <= |events|
    ensures PongIn(events[..k], from, to) <==> PongIn(events, from, to)
  {
    if PongIn(events, from, to) {
      var j :| from < j < to && j < |events| && events[j].Pong?;
      assert events[..k][j].Pong?;
    }
  }

  lemma PongInSplit(events: seq<Event>, from: nat, mid: nat, to: nat)
    requires from < mid < to <= |events| && !events[mid].Pong?
    ensures PongIn(events, from, to) <==> PongIn(events, from, mid) || PongIn(events, mid, to)
  {}

  ghost predicate RestsOnPing(events: seq<Event>, k: nat, l: Limits)
    requires FailsAt(events, k, l)
  {
    var p := Origin(events, k, l);
    && p.sent < p.put < k && events[p.sent].Send? && events[p.put].Insert?
    && !PongIn(events, p.put, k)
    && LateEnough(events[p.sent].info, events[k].now, events[k].suspicion, l)
    && (JustifiedBy(events, k, p.sent, l) <==> !PongIn(events, p.sent, p.put))
  }

  /** Whatever happens, in any order and at any times: a verdict of failure rests on a ping that was
      sent and then entered; no pong was handled since the entry was made; the verdict came more than
      pingFail + pingReqFail after the ping, and more than pingFail + 2 * pingReqFail if suspicion was
      on and the member was considered alive. The ping itself was left unanswered exactly if no pong was
      handled between its sending and its entry. */
  lemma VerdictRestsOnPing(events: seq<Event>, k: nat, l: Limits)
    requires Possible(events, l) && FailsAt(events, k, l)
    ensures RestsOnPing(events, k, l)
  {
    var p := Origin(events, k, l);
    PrefixPossible(events, k, l);
    RunsAreOk(events[..k], l);
    PongInPrefix(events, k, p.put, k);
    PongInSplit(events, p.sent, p.put, k);
  }

  /** The verdict on a suspected entry ends the waiting for its ping: what waits after it is the ping of the
      direct entry, if that moved in. */
  lemma VerdictEndsWaiting(events: seq<Event>, k: nat, l: Limits)
    requires FailsAt(events, k, l) && At(events, k, l).indirect.value.info.state == Suspected
    ensures var w, w' := At(events, k, l), Replay(events[..k + 1], l);
      w'.indirect.Some? ==> w.direct.Some? && w'.direct.None? && w'.indirect.value.sent == w.direct.value.sent
  {
    assert events[..k + 1][..k] == events[..k];
  }

  // ---------- runs without early pongs ----------

  ghost predicate NoEarlyPong(events: seq<Event>, l: Limits) {
    forall j: nat :: !EarlyPong(events, j, l)
  }

  predicate Unanswered(p: Option<Ping>) {
    p.Some? ==> !p.value.answered
  }

  predicate NoneAnswered(w: Wait) {
    Unanswered(w.flight) && Unanswered(w.direct) && Unanswered(w.indirect)
  }

  lemma PrefixNoEarlyPong(events: seq<Event>, k: nat, l: Limits)
    requires NoEarlyPong(events, l) && k <= |events|
    ensures NoEarlyPong(events[..k], l)
  {
    forall j: nat ensures !EarlyPong(events[..k], j, l) {
      if j < k {
        assert events[..k][..j] == events[..j];
        assert !EarlyPong(events, j, l);
      }
    }
  }

  lemma {:induction false} NobodyAnswered(events: seq<Event>, l: Limits)
    requires Possible(events, l) && NoEarlyPong(events, l)
    ensures NoneAnswered(Replay(events, l))
  {
    if events == [] {
    } else {
      PrefixPossible(events, |events| - 1, l);
      PrefixNoEarlyPong(events, |events| - 1, l);
      NobodyAnswered(events[..|events| - 1], l);
      assert !EarlyPong(events, |events| - 1, l);
    }
  }

  /** In a run in which no pong is handled while a ping is in flight every verdict of failure is
      justified. */
  lemma NoEarlyPongJustifies(events: seq<Event>, l: Limits)
    requires Possible(events, l) && NoEarlyPong(events, l)
    ensures AllJustified(events, l)
  {
    forall k: nat | FailsAt(events, k, l) ensures Justified(events, k, l) {
      var p := Origin(events, k, l);
      VerdictRestsOnPing(events, k, l);
      PrefixPossible(events, k, l);
      PrefixNoEarlyPong(events, k, l);
      NobodyAnswered(events[..k], l);
      RunsAreOk(events[..k], l);
      PongInPrefix(events, k, p.sent, p.put);
      assert JustifiedBy(events, k, p.sent, l);
    }
  }

  // ---------- what an early pong leads to ----------

  lemma StepPossible(events: seq<Event>, e: Event, l: Limits)
    requires Possible(events, l) && Enabled(Replay(events, l), e)
    ensures Possible(events + [e], l)
    ensures Replay(events + [e], l) == Step(Replay(events, l), e, |events|, l)
  {
    assert (events + [e])[..|events|] == events;
    forall j: nat | j < |events| + 1 ensures EnabledAt(events + [e], j, l) {
      if j < |events| {
        assert (events + [e])[..j] == events[..j];
        assert EnabledAt(events, j, l);
      }
    }
  }

  /** Nothing but checks by one setting, and the entry that is due first. */
  predicate Quiet(more: seq<Event>, suspicion: bool) {
    forall j :: 0 <= j < |more| ==> more[j].Insert? || (more[j].Check? && more[j].suspicion == suspicion)
  }

  /** No ping was sent after the pong at `j`. */
  predicate LastSendBefore(events: seq<Event>, j: nat) {
    j < |events| && events[j].Pong? && forall i :: j < i < |events| ==> !events[i].Send?
  }

  lemma NothingJustifies(events: seq<Event>, j: nat, k: nat, l: Limits)
    requires LastSendBefore(events, j) && j < k
    ensures !Justified(events, k, l)
  {
    forall p: nat ensures !JustifiedBy(events, k, p, l) {
      if p < j && k < |events| {
        assert PongIn(events, p, k);
      }
    }
  }

  /** Without another ping or pong the run ends in a verdict of failure. */
  ghost predicate EndsInFailure(run: seq<Event>, more: seq<Event>, suspicion: bool, l: Limits) {
    && Quiet(more, suspicion) && more != []
    && Possible(run + more, l) && FailsAt(run + more, |run| + |more| - 1, l)
  }

  lemma OneMore(run: seq<Event>, e: Event, more: seq<Event>, suspicion: bool, l: Limits)
    requires EndsInFailure(run + [e], more, suspicion, l) && Quiet([e], suspicion)
    ensures EndsInFailure(run, [e] + more, suspicion, l)
  {
    assert run + ([e] + more) == run + [e] + more;
    forall j | 0 <= j < |[e] + more|
      ensures ([e] + more)[j].Insert? || (([e] + more)[j].Check? && ([e] + more)[j].suspicion == suspicion)
    {
      assert ([e] + more)[j] == if j == 0 then [e][0] else more[j - 1];
    }
  }

  /** A check that judges the entry to be failed. */
  lemma VerdictAtEnd(events: seq<Event>, now: int, suspicion: bool, l: Limits)
    requires Possible(events, l) && Replay(events, l).flight.None? && Replay(events, l).indirect.Some?
    requires var i := Replay(events, l).indirect.value.info;
      Expired(i, now, l.pingReqFail) && i.state == Suspected
    ensures EndsInFailure(events, [Check(now, suspicion)], suspicion, l)
  {
    StepPossible(events, Check(now, suspicion), l);
    assert (events + [Check(now, suspicion)])[..|events|] == events;
  }

  /** One more check of an entry that is still considered alive suspects it. */
  lemma SuspectAtEnd(events: seq<Event>, now: int, suspicion: bool, l: Limits)
    requires Possible(events, l) && Replay(events, l).flight.None? && Replay(events, l).direct.None?
    requires Replay(events, l).indirect.Some?
    requires var i := Replay(events, l).indirect.value.info; Expired(i, now, l.pingReqFail) && i.state == Alive
    ensures var run := events + [Check(now, suspicion)];
      && Possible(run, l) && Replay(run, l).flight.None? && Replay(run, l).indirect.Some?
      && Replay(run, l).indirect.value.info.state == Suspected
      && Replay(run, l).indirect.value.info.timestamp == now
  {
    StepPossible(events, Check(now, suspicion), l);
  }

  lemma Enter(events: seq<Event>, l: Limits)
    requires Possible(events, l) && Replay(events, l).flight.Some? && Replay(events, l).indirect.None?
    ensures var run := events + [Insert];
      && Possible(run, l) && Replay(run, l).flight.None? && Replay(run, l).indirect.None?
      && Replay(run, l).direct.Some? && Replay(run, l).direct.value.info == Replay(events, l).flight.value.info
  {
    StepPossible(events, Insert, l);
  }

  lemma Move(events: seq<Event>, now: int, suspicion: bool, l: Limits)
    requires Possible(events, l) && Replay(events, l).flight.None? && Replay(events, l).direct.Some?
    requires Expired(Replay(events, l).direct.value.info, now, l.pingFail)
    ensures var run := events + [Check(now, suspicion)];
      && Possible(run, l) && Replay(run, l).flight.None? && Replay(run, l).direct.None? && Replay(run, l).indirect.Some?
      && Replay(run, l).indirect.value.info.state == Replay(events, l).direct.value.info.state
  {
    StepPossible(events, Check(now, suspicion), l);
  }

  /** An indirect entry that nothing is heard of ends in a verdict of failure. */
  lemma WaitToTheEnd(run: seq<Event>, suspicion: bool, l: Limits) returns (more: seq<Event>)
    requires Possible(run, l) && Replay(run, l).flight.None? && Replay(run, l).direct.None?
    requires Replay(run, l).indirect.Some? && Replay(run, l).indirect.value.info.state != Failed
    ensures EndsInFailure(run, more, suspicion, l)
  {
    var i := Replay(run, l).indirect.value.info;
    var now := i.timestamp + l.pingReqFail + 1;
    if i.state == Alive {
      more := WaitTwice(run, now, suspicion, l);
    } else {
      VerdictAtEnd(run, now, suspicion, l);
      more := [Check(now, suspicion)];
    }
  }

  lemma WaitTwice(run: seq<Event>, now: int, suspicion: bool, l: Limits) returns (more: seq<Event>)
    requires Possible(run, l) && Replay(run, l).flight.None? && Replay(run, l).direct.None?
    requires Replay(run, l).indirect.Some?
    requires var i := Replay(run, l).indirect.value.info; Expired(i, now, l.pingReqFail) && i.state == Alive
    ensures EndsInFailure(run, more, suspicion, l)
  {
    var first, second := Check(now, suspicion), Check(now + l.pingReqFail + 1, suspicion);
    SuspectAtEnd(run, now, suspicion, l);
    VerdictAtEnd(run + [first], second.now, suspicion, l);
    OneMore(run, first, [second], suspicion, l);
    more := [first] + [second];
  }

  lemma FlightHasNotFailed(events: seq<Event>, l: Limits)
    requires Possible(events, l) && Replay(events, l).flight.Some?
    ensures Replay(events, l).flight.value.info.state != Failed
  {
    RunsAreOk(events, l);
  }

  lemma EnterAndFail(events: seq<Event>, suspicion: bool, l: Limits) returns (more: seq<Event>)
    requires Possible(events, l) && Replay(events, l).flight.Some? && Replay(events, l).indirect.None?
    ensures EndsInFailure(events, more, suspicion, l)
  {
    FlightHasNotFailed(events, l);
    var now := Replay(events, l).flight.value.info.timestamp + l.pingFail + 1;
    Enter(events, l);
    Move(events + [Insert], now, suspicion, l);
    var rest := WaitToTheEnd(events + [Insert] + [Check(now, suspicion)], suspicion, l);
    OneMore(events + [Insert], Check(now, suspicion), rest, suspicion, l);
    OneMore(events, Insert, [Check(now, suspicion)] + rest, suspicion, l);
    more := [Insert] + ([Check(now, suspicion)] + rest);
  }

  /** Whatever has happened before, and whatever the limits and the setting: if a pong is handled while
      a ping is in flight and nothing more is heard, the member is declared failed by a verdict that no
      ping justifies. */
  lemma EarlyPongFails(events: seq<Event>, suspicion: bool, l: Limits) returns (more: seq<Event>)
    requires Possible(events, l) && Replay(events, l).flight.Some?
    ensures Quiet(more, suspicion) && Possible(events + [Pong] + more, l)
    ensures FailsAt(events + [Pong] + more, |events| + |more|, l)
    ensures !Justified(events + [Pong] + more, |events| + |more|, l)
  {
    StepPossible(events, Pong, l);
    more := EnterAndFail(events + [Pong], suspicion, l);
    NothingJustifies(events + [Pong] + more, |events|, |events| + |more|, l);
  }

  // ---------- exactly when a pong may be handled ----------

  /** Whatever follows, as long as no pong is early again, every verdict of failure is justified. */
  ghost predicate SafeAfter(events: seq<Event>, l: Limits) {
    forall more: seq<Event> :: Possible(events + more, l) && InTime(events, more, l) ==> AllJustified(events + more, l)
  }

  ghost predicate InTime(events: seq<Event>, more: seq<Event>, l: Limits) {
    forall j: nat :: j >= |events| ==> !EarlyPong(events + more, j, l)
  }

  lemma SafeIfNotInFlight(events: seq<Event>, more: seq<Event>, l: Limits)
    requires NoEarlyPong(events, l) && Replay(events, l).flight.None?
    requires Possible(events + [Pong] + more, l) && InTime(events + [Pong], more, l)
    ensures AllJustified(events + [Pong] + more, l)
  {
    var run := events + [Pong] + more;
    forall j: nat ensures !EarlyPong(run, j, l) {
      if j < |events| {
        assert run[..j] == events[..j];
        assert !EarlyPong(events, j, l);
      } else if j == |events| {
        assert run[..j] == events;
      }
    }
    NoEarlyPongJustifies(run, l);
  }

  /** Exactly when handling a pong is safe, in any run whose pongs came in time so far: if and only if
      the member's ping is not between its sending and its entry. */
  lemma PongIsSafeIffNotInFlight(events: seq<Event>, l: Limits)
    requires Possible(events, l) && NoEarlyPong(events, l)
    ensures SafeAfter(events + [Pong], l) <==> Replay(events, l).flight.None?
  {
    if Replay(events, l).flight.None? {
      forall more: seq<Event> | Possible(events + [Pong] + more, l) && InTime(events + [Pong], more, l)
        ensures AllJustified(events + [Pong] + more, l)
      {
        SafeIfNotInFlight(events, more, l);
      }
    } else {
      var more := EarlyPongFails(events, false, l);
      var run := events + [Pong] + more;
      assert InTime(events + [Pong], more, l);
      assert FailsAt(run, |events| + |more|, l);
    }
  }

  // ---------- how late a verdict can be ----------

  function Checks(times: seq<int>, suspicion: bool): (r: seq<Event>)
    ensures |r| == |times| && forall k :: 0 <= k < |r| ==> r[k] == Check(times[k], suspicion)
  {
    seq(|times|, k requires 0 <= k < |times| => Check(times[k], suspicion))
  }

  function LastOf(t: int, times: seq<int>): int {
    if times == [] then t else times[|times| - 1]
  }

  /** Each check comes at most `delta` after the one before, the first at most `delta` after `t`. */
  predicate Dense(t: int, times: seq<int>, delta: nat) {
    forall k :: 0 <= k < |times| ==> times[k] <= LastOf(t, times[..k]) + delta
  }

  /** The periods a ping waits for before its member is failed. */
  function Stages(ping: Info, suspicion: bool): nat {
    if suspicion && ping.state == Alive then 2 else 1
  }

  function Latest(ping: Info, suspicion: bool, l: Limits, delta: nat): int {
    ping.timestamp + l.pingFail + Stages(ping, suspicion) * l.pingReqFail + (1 + Stages(ping, suspicion)) * delta
  }

  predicate FailedBy(events: seq<Event>, from: nat, latest: int, l: Limits) {
    exists k: nat :: from <= k < |events| && FailsAt(events, k, l) && events[k].now <= latest
  }

  /** Where the ping is while its member has not been failed: waiting for a direct pong, for a requested
      one, or, suspected, for another period; and never longer than the checks are apart. */
  predicate OnTrack(w: Wait, ping: Info, now: int, suspicion: bool, l: Limits, delta: nat) {
    && w.flight.None?
    && if w.direct.Some? then w.direct.value.info == ping && now <= ping.timestamp + l.pingFail
       else w.indirect.Some? && InSecondStage(w.indirect.value.info, ping, now, suspicion, l, delta)
  }

  predicate InSecondStage(i: Info, ping: Info, now: int, suspicion: bool, l: Limits, delta: nat) {
    && now <= i.timestamp + l.pingReqFail
    && if i.state == ping.state then i.timestamp <= ping.timestamp + l.pingFail + delta
       else suspicion && ping.state == Alive && i.state == Suspected
            && i.timestamp <= ping.timestamp + l.pingFail + l.pingReqFail + 2 * delta
  }

  lemma CheckStaysOnTrack(w: Wait, ping: Info, last: int, now: int, suspicion: bool, l: Limits, delta: nat)
    requires OnTrack(w, ping, last, suspicion, l, delta) && now <= last + delta && ping.state != Failed
    requires w.indirect.Some? ==> w.indirect.value.info.state != Failed
    ensures OnTrack(Checked(w, now, l), ping, now, suspicion, l, delta)
      || (w.indirect.Some? && Expired(w.indirect.value.info, now, l.pingReqFail)
          && Verdict(NextVerdict(w.indirect.value.info), suspicion) == Failed && now <= Latest(ping, suspicion, l, delta))
  {}

  lemma FailedBefore(events: seq<Event>, e: Event, from: nat, latest: int, l: Limits)
    requires FailedBy(events, from, latest, l)
    ensures FailedBy(events + [e], from, latest, l)
  {
    var k: nat :| from <= k < |events| && FailsAt(events, k, l) && events[k].now <= latest;
    assert (events + [e])[..k] == events[..k];
    assert FailsAt(events + [e], k, l);
  }

  lemma FailsNow(events: seq<Event>, e: Event, from: nat, latest: int, l: Limits)
    requires from <= |events| && e.Check? && e.now <= latest && Replay(events, l).indirect.Some?
    requires var i := Replay(events, l).indirect.value.info;
      Expired(i, e.now, l.pingReqFail) && i.state != Failed && Verdict(NextVerdict(i), e.suspicion) == Failed
    ensures FailedBy(events + [e], from, latest, l)
  {
    assert (events + [e])[..|events|] == events;
    assert FailsAt(events + [e], |events|, l);
  }

  /** The member has been failed in time, or its ping is on track. */
  ghost predicate FailedOrWaits(run: seq<Event>, ping: Info, from: nat, last: int, suspicion: bool, l: Limits, delta: nat) {
    && Possible(run, l) && Replay(run, l).flight.None?
    && (FailedBy(run, from, Latest(ping, suspicion, l, delta), l) || OnTrack(Replay(run, l), ping, last, suspicion, l, delta))
  }

  lemma OneMoreCheck(run: seq<Event>, ping: Info, from: nat, last: int, now: int, suspicion: bool, l: Limits, delta: nat)
    requires FailedOrWaits(run, ping, from, last, suspicion, l, delta)
    requires from <= |run| && now <= last + delta && ping.state != Failed
    ensures FailedOrWaits(run + [Check(now, suspicion)], ping, from, now, suspicion, l, delta)
  {
    StepPossible(run, Check(now, suspicion), l);
    if FailedBy(run, from, Latest(ping, suspicion, l, delta), l) {
      FailedBefore(run, Check(now, suspicion), from, Latest(ping, suspicion, l, delta), l);
    } else {
      RunsAreOk(run, l);
      CheckStaysOnTrack(Replay(run, l), ping, last, now, suspicion, l, delta);
      if !OnTrack(Checked(Replay(run, l), now, l), ping, now, suspicion, l, delta) {
        FailsNow(run, Check(now, suspicion), from, Latest(ping, suspicion, l, delta), l);
      }
    }
  }

  lemma LastCheck(times: seq<int>, suspicion: bool)
    requires times != []
    ensures Checks(times, suspicion) == Checks(times[..|times| - 1], suspicion) + [Check(times[|times| - 1], suspicion)]
  {}

  lemma DenseBefore(t: int, times: seq<int>, delta: nat)
    requires times != [] && Dense(t, times, delta)
    ensures Dense(t, times[..|times| - 1], delta) && times[|times| - 1] <= LastOf(t, times[..|times| - 1]) + delta
  {
    var before := times[..|times| - 1];
    assert forall k :: 0 <= k < |before| ==> times[..k] == before[..k];
  }

  lemma {:induction false} SilentWaits(run: seq<Event>, ping: Info, times: seq<int>, suspicion: bool, l: Limits, delta: nat)
    requires FailedOrWaits(run, ping, |run|, ping.timestamp, suspicion, l, delta) && ping.state != Failed
    requires Dense(ping.timestamp, times, delta)
    ensures FailedOrWaits(run + Checks(times, suspicion), ping, |run|, LastOf(ping.timestamp, times), suspicion, l, delta)
  {
    if times == [] {
      assert run + Checks(times, suspicion) == run;
    } else {
      var before, now := times[..|times| - 1], times[|times| - 1];
      DenseBefore(ping.timestamp, times, delta);
      SilentWaits(run, ping, before, suspicion, l, delta);
      LastCheck(times, suspicion);
      assert run + Checks(times, suspicion) == run + Checks(before, suspicion) + [Check(now, suspicion)];
      OneMoreCheck(run + Checks(before, suspicion), ping, |run|, LastOf(ping.timestamp, before), now, suspicion, l, delta);
    }
  }

  lemma TooLateToWait(w: Wait, ping: Info, now: int, suspicion: bool, l: Limits, delta: nat)
    requires now > Latest(ping, suspicion, l, delta) - delta
    ensures !OnTrack(w, ping, now, suspicion, l, delta)
  {}

  lemma EnteredWaits(run: seq<Event>, ping: Info, suspicion: bool, l: Limits, delta: nat)
    requires Possible(run, l) && Replay(run, l).flight.None?
    requires Replay(run, l).direct.Some? && Replay(run, l).direct.value.info == ping
    ensures FailedOrWaits(run, ping, |run|, ping.timestamp, suspicion, l, delta) && ping.state != Failed
  {
    RunsAreOk(run, l);
  }

  /** A member that stays silent after a ping was entered, and is not pinged again, is declared failed by a
      check at most pingFail + pingReqFail after the ping, plus another pingReqFail with suspicion and an
      alive snapshot, plus one gap between checks for every stage, once the checks go on that long. */
  lemma SilentFailsInTime(run: seq<Event>, ping: Info, times: seq<int>, suspicion: bool, l: Limits, delta: nat)
    requires Possible(run, l) && Replay(run, l).flight.None?
    requires Replay(run, l).direct.Some? && Replay(run, l).direct.value.info == ping
    requires Dense(ping.timestamp, times, delta)
    requires LastOf(ping.timestamp, times) > Latest(ping, suspicion, l, delta) - delta
    ensures FailedBy(run + Checks(times, suspicion), |run|, Latest(ping, suspicion, l, delta), l)
  {
    EnteredWaits(run, ping, suspicion, l, delta);
    SilentWaits(run, ping, times, suspicion, l, delta);
    TooLateToWait(Replay(run + Checks(times, suspicion), l), ping, LastOf(ping.timestamp, times), suspicion, l, delta);
  }

  /** But pings hide the silence: as long as every check finds the last ping no older than pingFail, no
      verdict is ever reached, whatever is answered. */
  ghost predicate AlwaysFresh(events: seq<Event>, l: Limits) {
    forall k: nat {:trigger FreshAt(events, k, l)} :: k < |events| ==> FreshAt(events, k, l)
  }

  predicate FreshAt(events: seq<Event>, k: nat, l: Limits)
    requires k < |events|
  {
    events[k].Check? && At(events, k, l).direct.Some? ==> !Expired(At(events, k, l).direct.value.info, events[k].now, l.pingFail)
  }

  lemma {:induction false} FreshNeverWaits(events: seq<Event>, l: Limits)
    requires AlwaysFresh(events, l)
    ensures Replay(events, l).indirect.None?
  {
    if events == [] {
    } else {
      var before := events[..|events| - 1];
      forall k: nat | k < |before| ensures FreshAt(before, k, l) {
        assert before[..k] == events[..k];
        assert FreshAt(events, k, l);
      }
      FreshNeverWaits(before, l);
      assert FreshAt(events, |events| - 1, l);
    }
  }

  lemma FreshNeverFails(events: seq<Event>, k: nat, l: Limits)
    requires AlwaysFresh(events, l) && k <= |events|
    ensures !FailsAt(events, k, l)
  {
    forall j: nat | j < k ensures FreshAt(events[..k], j, l) {
      assert events[..k][..j] == events[..j];
      assert FreshAt(events, j, l);
    }
    FreshNeverWaits(events[..k], l);
  }
}
