/** One operator task as it serves one connection: duplicate check, processing, state log,
    acknowledgment, and the counting of end markers. Interleavings of several connections and the
    waiting for downstream tasks are the subject of module Pipeline. */
module OperatorTask {
  import P = Pipeline
  import O = Operators
  import opened Maybe

  function PayloadOf(t: O.Tuple): P.Payload {
    P.Payload(t.key, t.value)
  }

  // ---------- what serving a stream of tuples should do ----------

  /** The tuples executed, the ids known and the markers counted after a stream of tuples: a tuple
      with a known id is skipped, a marker is counted, another tuple is executed. */
  datatype Outcome = Outcome(executed: seq<O.Tuple>, known: set<string>, markers: nat)

  function After(incoming: seq<O.Tuple>, known: set<string>): Outcome {
    if incoming == [] then Outcome([], known, 0)
    else Next(After(incoming[..|incoming| - 1], known), incoming[|incoming| - 1])
  }

  function Next(o: Outcome, t: O.Tuple): Outcome {
    if t.id in o.known then o
    else if t.eof then o.(markers := o.markers + 1)
    else Outcome(o.executed + [t], o.known + {t.id}, o.markers)
  }

  function Ids(ts: seq<O.Tuple>): (r: seq<string>)
    ensures |r| == |ts| && forall i :: 0 <= i < |r| ==> r[i] == ts[i].id
  {
    seq(|ts|, i requires 0 <= i < |ts| => ts[i].id)
  }

  /** What the operator emits for the tuples it executes. */
  function Outputs(executed: seq<O.Tuple>, op: P.Operator): seq<O.Tuple> {
    if executed == [] then []
    else
      var last := executed[|executed| - 1];
      Outputs(executed[..|executed| - 1], op) + O.Emitted(last, op(PayloadOf(last)))
  }

  /** The executed tuples the operator lets through. */
  function Passing(executed: seq<O.Tuple>, op: P.Operator): seq<O.Tuple> {
    if executed == [] then []
    else
      var last := executed[|executed| - 1];
      Passing(executed[..|executed| - 1], op) + if op(PayloadOf(last)).Some? then [last] else []
  }

  /** Every tuple that passes is forwarded once, in order, with its id and what the operator made of it. */
  lemma {:induction false} OutputsAre(executed: seq<O.Tuple>, op: P.Operator)
    ensures var passing, out := Passing(executed, op), Outputs(executed, op);
      && Ids(out) == Ids(passing)
      && forall i :: 0 <= i < |out| ==> op(PayloadOf(passing[i])) == Some(PayloadOf(out[i])) && out[i].eof == passing[i].eof
  {
    if executed == [] {
    } else {
      OutputsAre(executed[..|executed| - 1], op);
    }
  }

  class OperatorTask {
    const op: P.Operator
    const numSources: nat
    var processedIDs: set<string>
    var stateLog: seq<string>
    var eofCount: nat
    var eofBroadcast: bool

    /** A started task knows the ids it recovered. */
    constructor (op: P.Operator, numSources: nat, recovered: seq<string>)
      ensures this.op == op && this.numSources == numSources
      ensures processedIDs == (set id | id in recovered) && stateLog == [] && eofCount == 0 && !eofBroadcast
    {
      this.op, this.numSources := op, numSources;
      processedIDs := set id | id in recovered;
      stateLog, eofCount, eofBroadcast := [], 0, false;
    }

    /** Counts an end marker; tells whether to broadcast it, which happens once at most. */
    method CountMarker() returns (broadcast: bool)
      modifies this`eofCount, this`eofBroadcast
      ensures eofCount == old(eofCount) + if numSources > 0 then 1 else 0
      ensures broadcast <==> numSources > 0 && eofCount >= numSources && !old(eofBroadcast)
      ensures eofBroadcast <==> old(eofBroadcast) || broadcast
    {
      broadcast := false;
      if numSources > 0 {
        eofCount := eofCount + 1;
        if eofCount >= numSources {
          var alreadyBroadcast := eofBroadcast;
          if !alreadyBroadcast {
            eofBroadcast := true;
          }
          broadcast := !alreadyBroadcast;
        }
      }
    }

    /** One tuple: a known id is skipped; a marker is counted; another tuple is processed, its id
        goes to the state log, and then it counts as processed. */
    method Handle(t: O.Tuple, ghost o: Outcome) returns (emitted: seq<O.Tuple>, broadcast: bool)
      requires eofBroadcast <==> numSources > 0 && eofCount >= numSources
      requires o.known == processedIDs
      modifies this
      ensures eofBroadcast <==> numSources > 0 && eofCount >= numSources
      ensures broadcast <==> eofBroadcast && !old(eofBroadcast)
      ensures Outputs(Next(o, t).executed, op) == Outputs(o.executed, op) + emitted
      ensures processedIDs == Next(o, t).known
      ensures |Next(o, t).executed| - |o.executed| == |stateLog| - |old(stateLog)|
      ensures stateLog == old(stateLog) + Ids(Next(o, t).executed)[|o.executed|..]
      ensures eofCount == old(eofCount) + if numSources > 0 then Next(o, t).markers - o.markers else 0
    {
      emitted, broadcast := [], false;
      if t.id in processedIDs {
        return;
      }
      if t.eof {
        broadcast := CountMarker();
      } else {
        assert (o.executed + [t])[..|o.executed|] == o.executed;
        emitted := O.Emitted(t, op(PayloadOf(t)));
        stateLog := stateLog + [t.id];
        processedIDs := processedIDs + {t.id};
      }
    }

    /** Serves what arrives on one connection, one tuple after the other. Every tuple is acknowledged;
        the operator runs exactly for the tuples with new ids, in order; their ids go to the state
        log; markers are counted, and broadcast once all are in. */
    method Serve(incoming: seq<O.Tuple>) returns (acks: seq<string>, emitted: seq<O.Tuple>, broadcasts: nat)
      requires eofBroadcast <==> numSources > 0 && eofCount >= numSources
      modifies this
      ensures acks == Ids(incoming)
      ensures emitted == Outputs(After(incoming, old(processedIDs)).executed, op)
      ensures stateLog == old(stateLog) + Ids(After(incoming, old(processedIDs)).executed)
      ensures processedIDs == After(incoming, old(processedIDs)).known
      ensures eofCount == old(eofCount) + if numSources > 0 then After(incoming, old(processedIDs)).markers else 0
      ensures eofBroadcast <==> numSources > 0 && eofCount >= numSources
      ensures broadcasts == if eofBroadcast && !old(eofBroadcast) then 1 else 0
    {
      acks, emitted, broadcasts := [], [], 0;
      var i := 0;
      ghost var o := Outcome([], processedIDs, 0);
      while i < |incoming|
        invariant 0 <= i <= |incoming|
        invariant acks == Ids(incoming[..i])
        invariant o == After(incoming[..i], old(processedIDs))
        invariant emitted == Outputs(o.executed, op)
        invariant stateLog == old(stateLog) + Ids(o.executed)
        invariant processedIDs == o.known
        invariant eofCount == old(eofCount) + if numSources > 0 then o.markers else 0
        invariant eofBroadcast <==> numSources > 0 && eofCount >= numSources
        invariant broadcasts == if eofBroadcast && !old(eofBroadcast) then 1 else 0
      {
        OneMore(incoming, i, old(processedIDs));
        LogGrows(old(stateLog), o, incoming[i]);
        var out, broadcast := Handle(incoming[i], o);
        o := Next(o, incoming[i]);
        emitted := emitted + out;
        broadcasts := broadcasts + if broadcast then 1 else 0;
        acks := acks + [incoming[i].id];
        i := i + 1;
      }
      assert incoming[..i] == incoming;
    }
  }

  lemma OneMore(incoming: seq<O.Tuple>, i: nat, known: set<string>)
    requires i < |incoming|
    ensures After(incoming[..i + 1], known) == Next(After(incoming[..i], known), incoming[i])
    ensures Ids(incoming[..i + 1]) == Ids(incoming[..i]) + [incoming[i].id]
  {
    assert incoming[..i + 1][..i] == incoming[..i];
  }

  lemma LogGrows(log: seq<string>, o: Outcome, t: O.Tuple)
    ensures |Next(o, t).executed| >= |o.executed|
    ensures log + Ids(o.executed) + Ids(Next(o, t).executed)[|o.executed|..] == log + Ids(Next(o, t).executed)
  {}

  // ---------- what that means for resends and restarts ----------

  predicate NewIn(incoming: seq<O.Tuple>, known: set<string>, id: string) {
    id !in known && exists i :: 0 <= i < |incoming| && incoming[i].id == id && !incoming[i].eof
  }

  predicate Executes(ts: seq<O.Tuple>, id: string) {
    exists i :: 0 <= i < |ts| && ts[i].id == id
  }

  /** An id is executed if and only if it is new, and then once; markers are not executed. */
  lemma {:induction false} EachNewIdOnce(incoming: seq<O.Tuple>, known: set<string>)
    ensures var o := After(incoming, known);
      && (forall i, j :: 0 <= i < j < |o.executed| ==> o.executed[i].id != o.executed[j].id)
      && (forall i :: 0 <= i < |o.executed| ==> !o.executed[i].eof && o.executed[i] in incoming)
      && (forall id :: Executes(o.executed, id) <==> NewIn(incoming, known, id))
      && (forall id :: id in o.known <==> id in known || Executes(o.executed, id))
  {
    if incoming == [] {
    } else {
      var before := incoming[..|incoming| - 1];
      var t := incoming[|incoming| - 1];
      EachNewIdOnce(before, known);
      var o := After(before, known);
      forall id ensures Executes(Next(o, t).executed, id) <==>
        Executes(o.executed, id) || (t.id !in o.known && !t.eof && id == t.id)
      {
        ExecutesNext(o, t, id);
      }
      forall id ensures NewIn(incoming, known, id) <==>
        NewIn(before, known, id) || (id !in known && !t.eof && id == t.id)
      {
        NewInNext(before, t, known, id);
      }
      assert incoming == before + [t];
    }
  }

  lemma ExecutesNext(o: Outcome, t: O.Tuple, id: string)
    ensures Executes(Next(o, t).executed, id) <==>
      Executes(o.executed, id) || (t.id !in o.known && !t.eof && id == t.id)
  {
    var e := Next(o, t).executed;
    if Executes(o.executed, id) {
      var i :| 0 <= i < |o.executed| && o.executed[i].id == id;
      assert e[i].id == id;
    }
    assert t.id !in o.known && !t.eof ==> e[|o.executed|].id == t.id;
  }

  lemma NewInNext(before: seq<O.Tuple>, t: O.Tuple, known: set<string>, id: string)
    ensures NewIn(before + [t], known, id) <==>
      NewIn(before, known, id) || (id !in known && !t.eof && id == t.id)
  {
    var incoming := before + [t];
    if NewIn(before, known, id) {
      var i :| 0 <= i < |before| && before[i].id == id && !before[i].eof;
      assert incoming[i].id == id;
    }
    assert incoming[|before|] == t;
  }

  function Markers(incoming: seq<O.Tuple>): nat {
    if incoming == [] then 0
    else Markers(incoming[..|incoming| - 1]) + if incoming[|incoming| - 1].eof then 1 else 0
  }

  lemma OnlyMarkersCalled(incoming: seq<O.Tuple>, known: set<string>, id: string)
    requires forall o :: o in incoming && !o.eof ==> o.id != id
    ensures !NewIn(incoming, known, id)
  {
    forall i | 0 <= i < |incoming| ensures !(incoming[i].id == id && !incoming[i].eof) {
      assert incoming[i] in incoming;
    }
  }

  /** Every end marker is counted, as long as no tuple and no recovered id is called like one. */
  lemma {:induction false} EveryMarkerCounted(incoming: seq<O.Tuple>, known: set<string>)
    requires forall t :: t in incoming && t.eof ==> t.id !in known && forall o :: o in incoming && !o.eof ==> o.id != t.id
    ensures After(incoming, known).markers == Markers(incoming)
  {
    if incoming == [] {
    } else {
      var before, t := incoming[..|incoming| - 1], incoming[|incoming| - 1];
      assert incoming == before + [t];
      EveryMarkerCounted(before, known);
      EachNewIdOnce(before, known);
      if t.eof {
        OnlyMarkersCalled(before, known, t.id);
      }
    }
  }

  /** A sender that resends any tuples it sent before, in any order, causes no second execution. */
  lemma {:induction false} ResendsChangeNothing(sent: seq<O.Tuple>, again: seq<O.Tuple>, known: set<string>)
    requires forall i :: 0 <= i < |again| ==> again[i] in sent && !again[i].eof
    ensures After(sent + again, known) == After(sent, known)
  {
    if again == [] {
      assert sent + again == sent;
    } else {
      var before := again[..|again| - 1];
      var t := again[|again| - 1];
      assert (sent + again)[..|sent + again| - 1] == sent + before;
      ResendsChangeNothing(sent, before, known);
      EachNewIdOnce(sent, known);
      assert t.id !in known ==> NewIn(sent, known, t.id);
    }
  }
}
