/** The source tasks: which lines each of them sends, and under which ids. */
module SourceTask {
  import opened Arithmetic
  import opened Text

  datatype NumberedLine = NumberedLine(content: string, number: nat)

  /** The lines below `upto` whose index is congruent to `i`, numbered from 1. */
  function PartitionOf(lines: seq<string>, n: nat, i: nat, upto: nat): seq<NumberedLine>
    requires n > 0 && upto <= |lines|
  {
    if upto == 0 then []
    else if (upto - 1) % n == i then PartitionOf(lines, n, i, upto - 1) + [NumberedLine(lines[upto - 1], upto)]
    else PartitionOf(lines, n, i, upto - 1)
  }

  method Partition(allLines: seq<string>, totalTasks: nat, taskIndex: nat) returns (lines: seq<NumberedLine>)
    requires totalTasks > 0
    ensures lines == PartitionOf(allLines, totalTasks, taskIndex, |allLines|)
  {
    lines := [];
    var i := 0;
    while i < |allLines|
      invariant 0 <= i <= |allLines|
      invariant lines == PartitionOf(allLines, totalTasks, taskIndex, i)
    {
      if i % totalTasks == taskIndex {
        lines := lines + [NumberedLine(allLines[i], i + 1)];
      }
      i := i + 1;
    }
  }

  predicate SentBy(lines: seq<string>, n: nat, i: nat, x: nat)
    requires n > 0 && x < |lines|
  {
    NumberedLine(lines[x], x + 1) in PartitionOf(lines, n, i, |lines|)
  }

  lemma {:induction false} PartitionHas(lines: seq<string>, n: nat, i: nat, upto: nat, l: NumberedLine)
    requires n > 0 && upto <= |lines|
    ensures l in PartitionOf(lines, n, i, upto) <==>
      1 <= l.number <= upto && l.content == lines[l.number - 1] && (l.number - 1) % n == i
  {
    if upto == 0 {
    } else {
      PartitionHas(lines, n, i, upto - 1, l);
    }
  }

  /** Every line is sent by exactly one source task, the one its index is congruent to. */
  lemma EachLineOneSource(lines: seq<string>, n: nat, x: nat, i: nat)
    requires n > 0 && x < |lines|
    ensures SentBy(lines, n, i, x) <==> i == x % n
  {
    PartitionHas(lines, n, i, |lines|, NumberedLine(lines[x], x + 1));
  }

  lemma NextIs(n: nat, i: nat, k: nat, x: nat)
    requires i < n && x % n == i && i + k * n >= x && (k > 0 ==> i + (k - 1) * n < x)
    ensures i + k * n == x
  {
    NextInClass(n, i, k);
    if i + k * n > x {
      ResidueGap(x, i + k * n, n);
    }
    assert (k - 1) * n == k * n - n;
  }

  lemma NextInClass(n: nat, i: nat, k: nat)
    requires i < n
    ensures i + k * n >= 0 && (i + k * n) % n == i
  {
    DivMod(n, k, i);
  }

  /** `p` holds the lines `i`, `i + n`, `i + 2 * n`, ... below `upto`. */
  predicate Stepped(p: seq<NumberedLine>, n: nat, i: nat, upto: nat) {
    && (forall k :: 0 <= k < |p| ==> p[k].number == i + k * n + 1)
    && i + |p| * n >= upto && (|p| > 0 ==> i + (|p| - 1) * n < upto)
  }

  lemma StepHit(p: seq<NumberedLine>, n: nat, i: nat, upto: nat, content: string)
    requires i < n && upto > 0 && Stepped(p, n, i, upto - 1) && (upto - 1) % n == i
    ensures Stepped(p + [NumberedLine(content, upto)], n, i, upto)
  {
    NextIs(n, i, |p|, upto - 1);
    assert (|p| + 1) * n == |p| * n + n;
  }

  lemma StepMiss(p: seq<NumberedLine>, n: nat, i: nat, upto: nat)
    requires i < n && upto > 0 && Stepped(p, n, i, upto - 1) && (upto - 1) % n != i
    ensures Stepped(p, n, i, upto)
  {
    NextInClass(n, i, |p|);
  }

  /** A source goes through its lines in steps of `n`: its `k`-th line is line `i + k * n`. */
  lemma {:induction false} PartitionSteps(lines: seq<string>, n: nat, i: nat, upto: nat)
    requires i < n && upto <= |lines|
    ensures Stepped(PartitionOf(lines, n, i, upto), n, i, upto)
  {
    if upto == 0 {
    } else {
      PartitionSteps(lines, n, i, upto - 1);
      var p := PartitionOf(lines, n, i, upto - 1);
      if (upto - 1) % n == i {
        StepHit(p, n, i, upto, lines[upto - 1]);
      } else {
        StepMiss(p, n, i, upto);
      }
    }
  }

  // ---------- ids ----------

  function TaskName(i: nat): string {
    "src-task-" + Decimal(i)
  }

  /** The id of line `x` among `n` sources. */
  function TupleId(n: nat, x: nat): string
    requires n > 0
  {
    TaskName(x % n) + "-tuple-" + Decimal(x + 1)
  }

  function MarkerId(i: nat): string {
    TaskName(i) + "-eof"
  }

  /** Ids identify lines, so line indices can stand for them. */
  lemma TupleIdsDiffer(n: nat, x: nat, y: nat)
    requires n > 0 && TupleId(n, x) == TupleId(n, y)
    ensures x == y
  {
    var a, b := TaskName(x % n) + "-tuple", TaskName(y % n) + "-tuple";
    assert TupleId(n, x) == a + ['-'] + Decimal(x + 1);
    assert TupleId(n, y) == b + ['-'] + Decimal(y + 1);
    LastSeparatorIsUnique(a, Decimal(x + 1), b, Decimal(y + 1), '-');
    DecimalInjective(x + 1, y + 1);
  }

  /** Different sources have different names and end markers. */
  lemma SourcesDiffer(i: nat, j: nat)
    requires i != j
    ensures TaskName(i) != TaskName(j) && MarkerId(i) != MarkerId(j)
  {
    assert TaskName(i)[9..] == Decimal(i) && TaskName(j)[9..] == Decimal(j);
    if Decimal(i) == Decimal(j) {
      DecimalInjective(i, j);
    }
    assert MarkerId(i)[..|MarkerId(i)| - 4] == TaskName(i) && MarkerId(j)[..|MarkerId(j)| - 4] == TaskName(j);
  }

  /** A tuple's id begins with the name of the source that sends it. */
  lemma TupleIdNamesSource(n: nat, x: nat)
    requires n > 0
    ensures TaskName(x % n) <= TupleId(n, x)
  {}

  /** No tuple shares its id with an end marker. */
  lemma MarkerIdsDiffer(n: nat, x: nat, i: nat)
    requires n > 0
    ensures TupleId(n, x) != MarkerId(i)
  {
    var id := TupleId(n, x);
    var d := Decimal(x + 1);
    assert id[|id| - 1] == d[|d| - 1];
    assert MarkerId(i)[|MarkerId(i)| - 1] == 'f';
  }
}
