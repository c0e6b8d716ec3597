/** How early and how late the timeout checks of the gossip protocol fail a member. */
module Timeouts {
  import opened Maybe
  import opened MemberInfo
  import opened MembershipList

  datatype Timing = Timing(Tfail: int, Tsuspect: int, suspicion: bool)

  /** How long a member that is alive and stays silent is at least spared. */
  function Grace(c: Timing): int {
    if c.suspicion then c.Tsuspect + c.Tfail else c.Tfail
  }

  /** Another node's view of the member is merged at a time, or the timeouts are checked at a time. */
  datatype Event = Merge(theirs: Info, time: int) | Check(time: int)

  /** Whether a merge takes over the other node's view. */
  predicate Accepted(mine: Info, theirs: Info) {
    && theirs.port != 0 && theirs.hostname != ""
    && if theirs.state == Failed then mine.state != Failed else theirs.counter > mine.counter
  }

  function Observe(i: Info, e: Event, c: Timing): Info {
    match e
    case Merge(theirs, time) => MergedEntry(Some(i), theirs, time).value
    case Check(time) => Checked(i, time, c.Tfail, c.Tsuspect, c.suspicion)
  }

  function Observed(i: Info, events: seq<Event>, c: Timing): Info {
    if events == [] then i
    else Observe(Observed(i, events[..|events| - 1], c), events[|events| - 1], c)
  }

  /** What was last taken over, stamped with the time of its arrival: the last sign of life, or the news
      of a failure that another node found. */
  function LastNews(i: Info, events: seq<Event>, c: Timing): Info {
    if events == [] then i
    else
      var before, e := events[..|events| - 1], events[|events| - 1];
      if e.Merge? && Accepted(Observed(i, before, c), e.theirs) then e.theirs.(timestamp := e.time)
      else LastNews(i, before, c)
  }

  /** Where a member can stand after this news and any checks: one that arrived suspected is spared the
      second part of the grace only, or, without suspicion, not checked any more. */
  predicate Follows(r: Info, news: Info, c: Timing) {
    && r == news.(timestamp := r.timestamp, state := r.state)
    && match news.state
       case Alive => FollowsAlive(r, news.timestamp, c)
       case Suspected =>
         || (r.state == Suspected && r.timestamp == news.timestamp)
         || (r.state == Failed && c.suspicion && r.timestamp > news.timestamp + c.Tfail)
       case Failed => r == news
  }

  predicate FollowsAlive(r: Info, t: int, c: Timing) {
    match r.state
    case Alive => r.timestamp == t
    case Suspected => c.suspicion && r.timestamp > t + c.Tsuspect
    case Failed => r.timestamp > t + Grace(c)
  }

  lemma {:induction false} AlwaysFollows(i: Info, events: seq<Event>, c: Timing)
    ensures Follows(Observed(i, events, c), LastNews(i, events, c), c)
  {
    if events == [] {
    } else {
      AlwaysFollows(i, events[..|events| - 1], c);
    }
  }

  /** For any merges and checks, a member fails only if another node told so, or by the timer, and then
      after its last sign of life plus the grace for the state in which that arrived: all of it if it
      arrived alive, Tfail if it arrived suspected with suspicion on; without suspicion one that arrived
      suspected is not failed by the timer at all. */
  lemma NeverFailedEarly(i: Info, events: seq<Event>, c: Timing)
    ensures var r, news := Observed(i, events, c), LastNews(i, events, c);
      r.state == Failed && news.state != Failed ==>
        if news.state == Alive then r.timestamp > news.timestamp + Grace(c)
        else c.suspicion && r.timestamp > news.timestamp + c.Tfail
  {
    AlwaysFollows(i, events, c);
  }

  /** A member not known before is taken in exactly if it has an address and is not reported failed; what
      is told of it counts from its arrival, so that it has the grace for the state it arrived in. */
  lemma NewcomerHasGrace(theirs: Info, now: int, times: seq<int>, c: Timing)
    ensures MergedEntry(None, theirs, now).Some? <==> theirs.port != 0 && theirs.hostname != "" && theirs.state != Failed
    ensures MergedEntry(None, theirs, now).Some? ==>
      var i := MergedEntry(None, theirs, now).value; var r := Observed(i, Checks(times), c);
      && i.counter == theirs.counter && i.hostname == theirs.hostname && i.port == theirs.port && i.version == theirs.version
      && (r.state == Failed ==>
            if theirs.state == Alive then r.timestamp > now + Grace(c) else c.suspicion && r.timestamp > now + c.Tfail)
      && (times == [] ==> r.state == theirs.state)
  {
    if MergedEntry(None, theirs, now).Some? {
      var i := MergedEntry(None, theirs, now).value;
      NeverFailedEarly(i, Checks(times), c);
      NoNews(i, times, c);
    }
  }

  /** Exactly when the whole grace is granted after a sign of life, whatever checks follow: if it arrived
      alive, or if a suspected member is not failed or not suspected for any time anyway. */
  lemma FullGraceIff(news: Info, c: Timing)
    requires news.state != Failed
    ensures (forall times: seq<int> :: FullGrace(news, times, c))
       <==> news.state == Alive || !c.suspicion || c.Tsuspect <= 0
  {
    if news.state == Alive || !c.suspicion || c.Tsuspect <= 0 {
      forall times: seq<int> ensures FullGrace(news, times, c) {
        NeverFailedEarly(news, Checks(times), c);
        NoNews(news, times, c);
      }
    } else {
      var times := [news.timestamp + c.Tfail + 1];
      assert Checks(times) == [Check(times[0])] && Checks(times)[..0] == [];
      assert Observed(news, [], c) == news;
      assert !FullGrace(news, times, c);
    }
  }

  predicate FullGrace(news: Info, times: seq<int>, c: Timing) {
    var r := Observed(news, Checks(times), c);
    r.state == Failed ==> r.timestamp > news.timestamp + Grace(c)
  }

  // ---------- a silent member ----------

  function Checks(times: seq<int>): (r: seq<Event>)
    ensures |r| == |times| && forall k :: 0 <= k < |r| ==> r[k] == Check(times[k])
  {
    seq(|times|, k requires 0 <= k < |times| => Check(times[k]))
  }

  function LastOf(t: int, times: seq<int>): int {
    if times == [] then t else times[|times| - 1]
  }

  /** Each check comes at most `delta` after the one before, the first at most `delta` after `t`. */
  predicate Dense(t: int, times: seq<int>, delta: nat) {
    forall k :: 0 <= k < |times| ==> times[k] <= LastOf(t, times[..k]) + delta
  }

  /** How many checks can be late by up to `delta` before the verdict. */
  function Lateness(c: Timing, delta: nat): nat {
    if c.suspicion then 2 * delta else delta
  }

  predicate OnSchedule(i: Info, t: int, now: int, c: Timing, delta: nat) {
    match i.state
    case Alive => i.timestamp == t && now <= t + if c.suspicion then c.Tsuspect else c.Tfail
    case Suspected => c.suspicion && i.timestamp <= t + c.Tsuspect + delta && now <= i.timestamp + c.Tfail
    case Failed => i.timestamp <= t + Grace(c) + Lateness(c, delta)
  }

  lemma {:induction false} StaysOnSchedule(i: Info, times: seq<int>, c: Timing, delta: nat)
    requires i.state == Alive && c.Tfail >= 0 && c.Tsuspect >= 0 && Dense(i.timestamp, times, delta)
    ensures OnSchedule(Observed(i, Checks(times), c), i.timestamp, LastOf(i.timestamp, times), c, delta)
  {
    if times == [] {
    } else {
      var before := times[..|times| - 1];
      assert Checks(times)[..|times| - 1] == Checks(before);
      assert forall k :: 0 <= k < |before| ==> times[..k] == before[..k];
      StaysOnSchedule(i, before, c, delta);
    }
  }

  /** A member that is alive at `t` and not refreshed any more, with checks at most `delta` apart, has
      failed once the checks go on long enough, by `t` plus the grace period plus one `delta` for
      every stage of the detection; and not before the grace period is over. */
  lemma FailedInTime(i: Info, times: seq<int>, c: Timing, delta: nat)
    requires i.state == Alive && c.Tfail >= 0 && c.Tsuspect >= 0 && Dense(i.timestamp, times, delta)
    requires LastOf(i.timestamp, times) > i.timestamp + Grace(c) + (if c.suspicion then delta else 0)
    ensures var r := Observed(i, Checks(times), c);
      r.state == Failed
      && i.timestamp + Grace(c) < r.timestamp <= i.timestamp + Grace(c) + Lateness(c, delta)
  {
    StaysOnSchedule(i, times, c, delta);
    NeverFailedEarly(i, Checks(times), c);
    NoNews(i, times, c);
  }

  lemma {:induction false} NoNews(i: Info, times: seq<int>, c: Timing)
    ensures LastNews(i, Checks(times), c) == i
  {
    if times == [] {
    } else {
      assert Checks(times)[..|times| - 1] == Checks(times[..|times| - 1]);
      NoNews(i, times[..|times| - 1], c);
    }
  }

  lemma {:induction false} SuspectedOnSchedule(i: Info, times: seq<int>, c: Timing, delta: nat)
    requires i.state == Suspected && c.suspicion && c.Tfail >= 0 && Dense(i.timestamp, times, delta)
    ensures var r := Observed(i, Checks(times), c);
      if r.state == Failed then r.timestamp <= i.timestamp + c.Tfail + delta
      else r == i && LastOf(i.timestamp, times) <= i.timestamp + c.Tfail
  {
    if times == [] {
    } else {
      var before := times[..|times| - 1];
      assert Checks(times)[..|times| - 1] == Checks(before);
      assert forall k :: 0 <= k < |before| ==> times[..k] == before[..k];
      SuspectedOnSchedule(i, before, c, delta);
    }
  }

  lemma {:induction false} SuspectedForGood(i: Info, times: seq<int>, c: Timing)
    requires i.state == Suspected && !c.suspicion
    ensures Observed(i, Checks(times), c) == i
  {
    if times == [] {
    } else {
      assert Checks(times)[..|times| - 1] == Checks(times[..|times| - 1]);
      SuspectedForGood(i, times[..|times| - 1], c);
    }
  }

  /** The same for a member whose last sign of life arrived suspected: with suspicion it fails in time
      after Tfail; without suspicion the timer never fails it. */
  lemma SuspectedFailsIffSuspicion(i: Info, times: seq<int>, c: Timing, delta: nat)
    requires i.state == Suspected && c.Tfail >= 0 && Dense(i.timestamp, times, delta)
    requires LastOf(i.timestamp, times) > i.timestamp + c.Tfail
    ensures var r := Observed(i, Checks(times), c);
      && (r.state == Failed <==> c.suspicion)
      && (r.state == Failed ==> i.timestamp + c.Tfail < r.timestamp <= i.timestamp + c.Tfail + delta)
  {
    NeverFailedEarly(i, Checks(times), c);
    NoNews(i, times, c);
    if c.suspicion {
      SuspectedOnSchedule(i, times, c, delta);
    } else {
      SuspectedForGood(i, times, c);
    }
  }

  /** The node's own settings, in milliseconds: no suspicion, 5 s until failure, a check every 500 ms. A silent member
      is failed more than 5 s and at most 5.5 s after its last sign of life. */
  lemma NodeSettings(i: Info, times: seq<int>)
    requires i.state == Alive && Dense(i.timestamp, times, 500) && LastOf(i.timestamp, times) > i.timestamp + 5000
    ensures var r := Observed(i, Checks(times), Timing(5000, 5000, false));
      r.state == Failed && i.timestamp + 5000 < r.timestamp <= i.timestamp + 5500
  {
    FailedInTime(i, times, Timing(5000, 5000, false), 500);
  }
}
