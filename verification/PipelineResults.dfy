/** What the pipeline guarantees: exactly-once counting, and flushes equal to the sequential group-by. */
module PipelineResults {
  import opened Maybe
  import opened Text
  import opened Pipeline
  import opened PipelineSafety
  import opened PipelineEnds

  // ---------- exactly once ----------

  /** How often the counting operator was executed for line `x`. */
  function Times(history: seq<Tally>, x: nat): nat {
    if history == [] then 0
    else Times(history[..|history| - 1], x) + if history[|history| - 1].id == x then 1 else 0
  }

  lemma {:induction false} TimesByCounted(job: Job, history: seq<Tally>, x: nat)
    requires ValidJob(job) && HistoryOk(job, history)
    ensures Times(history, x) == if Counted(history, x) then 1 else 0
  {
    if history == [] {
    } else {
      var before := history[..|history| - 1];
      var last := history[|history| - 1];
      assert history == before + [last];
      TimesByCounted(job, before, x);
      if Counted(before, x) {
        var j :| 0 <= j < |before| && before[j].id == x;
        assert history[j].id == x;
      }
    }
  }

  /** In every run, with any crashes of stateless tasks, losses and resends: a line is counted at
      most once, only if it passes the operators, and only at the task its key hashes to. */
  lemma NeverCountedTwice(job: Job, steps: seq<Step>, states: seq<State>, x: nat)
    requires ValidJob(job) && Run(job, steps, states)
    ensures var h := states[|steps|].data.history;
      && Times(h, x) <= (if CountedKey(job, x).Some? then 1 else 0)
      && forall j :: 0 <= j < |h| && h[j].id == x ==>
           CountedKey(job, x) == Some(h[j].key) && h[j].task == job.hash(h[j].key) % job.n
  {
    RunsAreSafe(job, steps, states, |steps|);
    var h := states[|steps|].data.history;
    TimesByCounted(job, h, x);
    forall j | 0 <= j < |h| ensures CountedKey(job, h[j].id) == Some(h[j].key) && h[j].task == job.hash(h[j].key) % job.n {
      assert TallyOk(job, h[j]);
    }
  }

  lemma CountedHasKey(job: Job, history: seq<Tally>, x: nat)
    requires ValidJob(job) && HistoryOk(job, history)
    ensures Counted(history, x) ==> CountedKey(job, x).Some?
  {
    forall j | 0 <= j < |history| ensures CountedKey(job, history[j].id).Some? {
      assert TallyOk(job, history[j]);
    }
  }

  /** A tuple whose acknowledgment has reached its source has been counted exactly once if it
      passes the operators, and not at all otherwise. */
  lemma AckedMeansCountedOnce(job: Job, steps: seq<Step>, states: seq<State>, x: nat)
    requires ValidJob(job) && Run(job, steps, states)
    requires x % job.n < |states[|steps|].data.sources|
    requires Passed(job, states[|steps|].data.sources[x % job.n], x)
    ensures Times(states[|steps|].data.history, x) == if CountedKey(job, x).Some? then 1 else 0
  {
    RunsAreSafe(job, steps, states, |steps|);
    var s := states[|steps|].data;
    assert SourceOk(job, x % job.n, s.sources[x % job.n], s.history);
    TimesByCounted(job, s.history, x);
    CountedHasKey(job, s.history, x);
  }

  // ---------- the group-by ----------

  function Lookup(c: Counts, k: string): nat {
    if k in c then c[k] else 0
  }

  /** The lines below `upto` to be counted under key `k`. */
  function LinesWith(job: Job, upto: nat, k: string): set<nat> {
    set x: nat | x < upto && CountedKey(job, x) == Some(k)
  }

  lemma {:induction false} GroupByCounts(job: Job, upto: nat, k: string)
    ensures Lookup(GroupBy(job, upto), k) == |LinesWith(job, upto, k)|
    ensures k in GroupBy(job, upto) <==> LinesWith(job, upto, k) != {}
  {
    if upto == 0 {
      assert LinesWith(job, 0, k) == {};
    } else {
      GroupByCounts(job, upto - 1, k);
      LinesStep(job, upto, k);
      GroupByStep(job, upto, k);
    }
  }

  lemma GroupByStep(job: Job, upto: nat, k: string)
    requires upto > 0
    ensures var before, now := GroupBy(job, upto - 1), GroupBy(job, upto);
      if CountedKey(job, upto - 1) == Some(k)
      then k in now && now[k] == Lookup(before, k) + 1
      else (k in now <==> k in before) && Lookup(now, k) == Lookup(before, k)
  {}

  lemma LinesStep(job: Job, upto: nat, k: string)
    requires upto > 0
    ensures var before := LinesWith(job, upto - 1, k);
      if CountedKey(job, upto - 1) == Some(k)
      then LinesWith(job, upto, k) == before + {upto - 1} && |before + {upto - 1}| == |before| + 1
      else LinesWith(job, upto, k) == before
  {}

  /** The lines counted at task `d` under key `k`. */
  function Occurrences(history: seq<Tally>, d: nat, k: string): set<nat> {
    set j | 0 <= j < |history| && history[j].task == d && history[j].key == k :: history[j].id
  }

  lemma {:induction false} TallyCounts(job: Job, history: seq<Tally>, d: nat, k: string)
    requires ValidJob(job) && HistoryOk(job, history)
    ensures Lookup(TallyOf(history, d), k) == |Occurrences(history, d, k)|
    ensures k in TallyOf(history, d) <==> Occurrences(history, d, k) != {}
  {
    if history == [] {
      assert Occurrences(history, d, k) == {};
    } else {
      var before := history[..|history| - 1];
      var last := history[|history| - 1];
      TallyCounts(job, before, d, k);
      OccurrencesStep(before, last, d, k);
      assert history == before + [last];
    }
  }

  lemma OccurrencesStep(before: seq<Tally>, last: Tally, d: nat, k: string)
    requires forall j :: 0 <= j < |before| ==> before[j].id != last.id
    ensures var now := Occurrences(before + [last], d, k);
      if last.task == d && last.key == k
      then now == Occurrences(before, d, k) + {last.id} && |now| == |Occurrences(before, d, k)| + 1
      else now == Occurrences(before, d, k)
  {
    forall x ensures x in Occurrences(before + [last], d, k) <==>
      x in Occurrences(before, d, k) || (last.task == d && last.key == k && x == last.id)
    {
      OccurrenceOf(before, last, d, k, x);
    }
    assert last.id !in Occurrences(before, d, k);
    if last.task == d && last.key == k {
      assert Occurrences(before + [last], d, k) == Occurrences(before, d, k) + {last.id};
    } else {
      assert Occurrences(before + [last], d, k) == Occurrences(before, d, k);
    }
  }

  lemma OccurrenceOf(before: seq<Tally>, last: Tally, d: nat, k: string, x: nat)
    ensures x in Occurrences(before + [last], d, k) <==>
      x in Occurrences(before, d, k) || (last.task == d && last.key == k && x == last.id)
  {
    var h := before + [last];
    assert h[|before|] == last;
    if x in Occurrences(before, d, k) {
      var j :| 0 <= j < |before| && before[j].task == d && before[j].key == k && before[j].id == x;
      assert h[j] == before[j];
    }
  }

  /** When every line is settled, the history holds exactly the lines to be counted. */
  lemma OccurrencesComplete(job: Job, history: seq<Tally>, d: nat, k: string)
    requires ValidJob(job) && HistoryOk(job, history)
    requires forall x: nat :: Settled(job, history, x)
    ensures Occurrences(history, d, k) == if job.hash(k) % job.n == d then LinesWith(job, |job.lines|, k) else {}
  {
    forall x | x in Occurrences(history, d, k) ensures job.hash(k) % job.n == d && x in LinesWith(job, |job.lines|, k) {
      var j :| 0 <= j < |history| && history[j].task == d && history[j].key == k && history[j].id == x;
      assert TallyOk(job, history[j]);
      CountedLineExists(job, x);
    }
    if job.hash(k) % job.n == d {
      forall x | x in LinesWith(job, |job.lines|, k) ensures x in Occurrences(history, d, k) {
        assert Settled(job, history, x);
        var j :| 0 <= j < |history| && history[j].id == x;
        assert TallyOk(job, history[j]);
      }
    }
  }

  lemma CountedLineExists(job: Job, x: nat)
    requires CountedKey(job, x).Some?
    ensures x < |job.lines|
  {}

  lemma CompleteTally(job: Job, history: seq<Tally>, d: nat)
    requires ValidJob(job) && HistoryOk(job, history)
    requires forall x: nat :: Settled(job, history, x)
    ensures TallyOf(history, d) == PartOf(job, GroupBy(job, |job.lines|), d)
  {
    var t := TallyOf(history, d);
    var g := PartOf(job, GroupBy(job, |job.lines|), d);
    forall k ensures (k in t <==> k in g) && Lookup(t, k) == Lookup(g, k) {
      TallyCounts(job, history, d, k);
      OccurrencesComplete(job, history, d, k);
      GroupByCounts(job, |job.lines|, k);
    }
    assert t.Keys == g.Keys;
    forall k | k in t ensures t[k] == g[k] {
      assert Lookup(t, k) == Lookup(g, k);
    }
  }

  /** Whatever a counting task flushes, at its first marker and in any run, is its share of the
      sequential group-by over the whole file. */
  lemma FlushIsFinal(job: Job, steps: seq<Step>, states: seq<State>, d: nat)
    requires ValidJob(job) && MarkersWait(job) && Run(job, steps, states)
    requires d in states[|steps|].ends.flushed
    ensures states[|steps|].ends.flushed[d] == PartOf(job, GroupBy(job, |job.lines|), d)
  {
    var s := states[|steps|];
    RunsAreSafe(job, steps, states, |steps|);
    RunsKeepEnds(job, steps, states, |steps|);
    forall x: nat ensures Settled(job, s.data.history, x) {
      EndedMeansSettled(job, s.data, x);
    }
    CompleteTally(job, s.data.history, d);
  }

  /** When all counting tasks have flushed, every key of the group-by comes out of exactly one of
      them, with the number of its lines; and nothing else comes out. */
  lemma EachKeyFlushedOnce(job: Job, steps: seq<Step>, states: seq<State>, k: string)
    requires ValidJob(job) && MarkersWait(job) && Run(job, steps, states)
    requires forall d: nat :: d < job.n ==> d in states[|steps|].ends.flushed
    ensures var out := states[|steps|].ends.flushed;
      var owner := job.hash(k) % job.n;
      && (forall d :: d in out && k in out[d] ==> d == owner && out[d][k] == |LinesWith(job, |job.lines|, k)|)
      && (LinesWith(job, |job.lines|, k) != {} <==> k in out[owner])
  {
    var out := states[|steps|].ends.flushed;
    forall d | d in out ensures out[d] == PartOf(job, GroupBy(job, |job.lines|), d) {
      FlushIsFinal(job, steps, states, d);
    }
    GroupByCounts(job, |job.lines|, k);
  }

  // ---------- exactly when the first marker is late enough ----------

  /** Every flush of every job of this shape, in every run, is its share of the group-by. */
  ghost predicate AlwaysFinal(n: nat, depth: nat) {
    forall job: Job, steps: seq<Step>, states: seq<State>, d: nat ::
      ValidJob(job) && job.n == n && Depth(job) == depth ==> !FlushedWrongly(job, steps, states, d)
  }

  function EarlyJob(n: nat): Job {
    Job("f", ["", "a"], n, [], (k: string) => 0)
  }

  function EarlySteps(): seq<Step> {
    [SourceNext(0), SourceNext(0), ReceiveMarker(Marker(0, 0, 0))]
  }

  function EarlyStates(n: nat): (r: seq<State>)
    requires n >= 2
    ensures |r| == 4 && Run(EarlyJob(n), EarlySteps(), r)
    ensures 0 in r[3].ends.flushed && r[3].ends.flushed[0] == map[]
  {
    var job := EarlyJob(n);
    BlankFirstLine(n);
    var s0 := Start(job);
    var s1 := Apply(job, s0, SourceNext(0));
    assert s1.data.sources[0] == Reading(n);
    var s2 := Apply(job, s1, SourceNext(0));
    assert Marker(0, 0, 0) in s2.ends.markers;
    assert s2.data.counts[0] == map[];
    var s3 := Apply(job, s2, ReceiveMarker(Marker(0, 0, 0)));
    [s0, s1, s2, s3]
  }

  /** A direct source-to-count job with several sources: source 0 has only a blank line and ends
      at once; its marker makes task 0 flush before the other source's line is counted. */
  lemma EarlyFlush(n: nat)
    requires n >= 2
    ensures exists states :: FlushedWrongly(EarlyJob(n), EarlySteps(), states, 0)
  {
    EarlyShare(n);
    assert FlushedWrongly(EarlyJob(n), EarlySteps(), EarlyStates(n), 0);
  }

  /** A run in which what task `d` flushed is not its share. */
  ghost predicate FlushedWrongly(job: Job, steps: seq<Step>, states: seq<State>, d: nat)
    requires ValidJob(job)
  {
    Run(job, steps, states) && d in states[|steps|].ends.flushed
    && states[|steps|].ends.flushed[d] != PartOf(job, GroupBy(job, |job.lines|), d)
  }

  lemma EarlyShare(n: nat)
    requires n >= 2
    ensures PartOf(EarlyJob(n), GroupBy(EarlyJob(n), 2), 0) != map[]
  {
    var key := "f:" + Decimal(2);
    BlankFirstLine(n);
    GroupByCounts(EarlyJob(n), 2, key);
    assert 1 in LinesWith(EarlyJob(n), 2, key);
    assert EarlyJob(n).hash(key) % n == 0;
    assert key in PartOf(EarlyJob(n), GroupBy(EarlyJob(n), 2), 0);
  }

  lemma BlankFirstLine(n: nat)
    ensures !IsTuple(EarlyJob(n), 0)
    ensures CountedKey(EarlyJob(n), 1) == Some("f:" + Decimal(2))
  {
    var job := EarlyJob(n);
    assert job.lines[1] == "a" && TrimSpace("a") == "a";
    assert IsTuple(job, 1) && Depth(job) == 1;
    assert Arriving(job, 1, 1) == Some(SourceTuple(job, 1));
    assert "f" + ":" == "f:";
    assert SourceTuple(job, 1).key == "f:" + Decimal(2);
  }

  /** The first marker handled by a counting task is always late enough exactly if a stateless stage
      lies before it or each stage has a single task. */
  lemma AlwaysFinalIff(n: nat, depth: nat)
    requires n >= 1 && depth >= 1
    ensures AlwaysFinal(n, depth) <==> depth >= 2 || n == 1
  {
    if depth >= 2 || n == 1 {
      forall job: Job, steps: seq<Step>, states: seq<State>, d: nat |
        ValidJob(job) && job.n == n && Depth(job) == depth
        ensures !FlushedWrongly(job, steps, states, d)
      {
        if Run(job, steps, states) && d in states[|steps|].ends.flushed {
          FlushIsFinal(job, steps, states, d);
        }
      }
    } else {
      EarlyFlush(n);
      var states :| FlushedWrongly(EarlyJob(n), EarlySteps(), states, 0);
      assert Depth(EarlyJob(n)) == 1;
    }
  }
}
