/** The job this system is demonstrated with: filter lines by a pattern, count them by a CSV column. */
module GrepCount {
  import opened Maybe
  import opened Text
  import P = Pipeline
  import E = PipelineEnds
  import R = PipelineResults
  import C = PipelineClean
  import S = PipelineStuck
  import O = Operators

  function GrepCountJob(file: string, lines: seq<string>, n: nat, pattern: string -> bool, column: int,
                        hash: string -> nat): P.Job {
    P.Job(file, lines, n, [O.Grep(pattern, column)], hash)
  }

  /** `k` is the text of the column, empty beyond the last one; without a column it is the tuple's own
      key. */
  predicate KeyedBy(column: int, own: string, value: string, k: string) {
    k == if column <= 0 then own
         else if column <= O.Columns(value) then O.Column(value, column, |value|)
         else ""
  }

  /** The non-blank lines that match the pattern and have key `k`. */
  function Matching(file: string, lines: seq<string>, pattern: string -> bool, column: int, k: string): set<nat> {
    set x: nat | x < |lines| && TrimSpace(lines[x]) != "" && pattern(TrimSpace(lines[x]))
                 && KeyedBy(column, file + ":" + Decimal(x + 1), TrimSpace(lines[x]), k)
  }

  lemma MatchingAreCounted(file: string, lines: seq<string>, n: nat, pattern: string -> bool, column: int,
                           hash: string -> nat, k: string)
    ensures R.LinesWith(GrepCountJob(file, lines, n, pattern, column, hash), |lines|, k)
      == Matching(file, lines, pattern, column, k)
  {
    var job := GrepCountJob(file, lines, n, pattern, column, hash);
    forall x: nat | x < |lines|
      ensures P.CountedKey(job, x) == Some(k) <==> x in Matching(file, lines, pattern, column, k)
    {
      assert P.Depth(job) == 2;
      if P.IsTuple(job, x) {
        assert P.Arriving(job, 1, x) == Some(P.SourceTuple(job, x));
        assert P.Arriving(job, 2, x) == O.Grep(pattern, column)(P.SourceTuple(job, x));
        O.KeyIsColumn(column, file + ":" + Decimal(x + 1), TrimSpace(lines[x]));
      } else {
        assert P.Arriving(job, 2, x) == None;
      }
    }
  }

  /** In every run in which all counting tasks have flushed, whatever crashed or was resent, each key
      was flushed by exactly one task, with the number of matching non-blank lines that have it. */
  lemma GrepCountIsGroupBy(file: string, lines: seq<string>, n: nat, pattern: string -> bool, column: int,
                           hash: string -> nat, steps: seq<P.Step>, states: seq<P.State>, k: string)
    requires n > 0 && P.Run(GrepCountJob(file, lines, n, pattern, column, hash), steps, states)
    requires forall d: nat :: d < n ==> d in states[|steps|].ends.flushed
    ensures var out := states[|steps|].ends.flushed;
      var expected := Matching(file, lines, pattern, column, k);
      && (forall d :: d in out && k in out[d] ==> d == hash(k) % n && out[d][k] == |expected|)
      && (k in out[hash(k) % n] <==> expected != {})
  {
    var job := GrepCountJob(file, lines, n, pattern, column, hash);
    MatchingAreCounted(file, lines, n, pattern, column, hash, k);
    assert E.MarkersWait(job);
    R.EachKeyFlushedOnce(job, steps, states, k);
  }

  /** And a run without failures that has gone as far as it goes is such a run. */
  lemma GrepCountFinishes(file: string, lines: seq<string>, n: nat, pattern: string -> bool, column: int,
                          hash: string -> nat, steps: seq<P.Step>, states: seq<P.State>, k: string)
    requires n > 0 && P.Run(GrepCountJob(file, lines, n, pattern, column, hash), steps, states)
    requires C.AllClean(steps) && S.Stuck(GrepCountJob(file, lines, n, pattern, column, hash), states[|steps|])
    ensures var out := states[|steps|].ends.flushed;
      var expected := Matching(file, lines, pattern, column, k);
      && (forall d: nat :: d < n ==> d in out)
      && (forall d :: d in out && k in out[d] ==> d == hash(k) % n && out[d][k] == |expected|)
      && (k in out[hash(k) % n] <==> expected != {})
  {
    S.StuckMeansFinished(GrepCountJob(file, lines, n, pattern, column, hash), steps, states);
    GrepCountIsGroupBy(file, lines, n, pattern, column, hash, steps, states, k);
  }
}
