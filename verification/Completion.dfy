/** Counting the completed tasks of a job in two separate critical sections, with concurrent and
    repeated reports. */
module Completion {
  import opened Maybe

  /** The leader's books of one job. */
  datatype Books = Books(
    completedIDs: set<string>, completed: nat, expected: nat,
    upscaled: set<string>, originalCount: nat, originalsDone: bool, ended: bool)

  /** What a handler takes with it from the first section into the second. */
  datatype Snapshot = Snapshot(completed: nat, expected: nat)

  /** A job begins with its original tasks. */
  function Start(originals: set<string>): Books {
    Books({}, 0, |originals|, {}, |originals|, false, false)
  }

  function Count(b: Books, id: string): Books {
    if id in b.completedIDs then b else b.(completedIDs := b.completedIDs + {id}, completed := b.completed + 1)
  }

  function OriginalsCompleted(b: Books): nat {
    |b.completedIDs - b.upscaled|
  }

  predicate FansOut(b: Books) {
    OriginalsCompleted(b) >= b.originalCount && !b.originalsDone
  }

  /** The first section: count the id, and note when all original tasks are done. */
  function AfterReport(b: Books, id: string): Books {
    var c := Count(b, id);
    if FansOut(c) then c.(originalsDone := true) else c
  }

  predicate Ends(b: Books, s: Snapshot) {
    s.completed >= s.expected && !b.ended
  }

  /** The second section: end the run if the snapshot was complete. */
  function AfterCheck(b: Books, s: Snapshot): Books {
    if Ends(b, s) then b.(ended := true) else b
  }

  /** A task that is added while the job runs is expected too. */
  function AfterAddition(b: Books, id: string): Books {
    b.(expected := b.expected + 1, upscaled := b.upscaled + {id})
  }

  // ---------- the leader's sections ----------

  class Tracker {
    var completedTaskIDs: set<string>
    var completedTasks: nat
    var expectedTasks: nat
    var upscaledTaskIDs: set<string>
    var originalTaskCount: nat
    var originalTasksDone: bool
    var jobEnded: bool

    function BooksNow(): Books
      reads this
    {
      Books(completedTaskIDs, completedTasks, expectedTasks, upscaledTaskIDs, originalTaskCount, originalTasksDone, jobEnded)
    }

    constructor (originals: set<string>)
      ensures BooksNow() == Start(originals)
    {
      completedTaskIDs, completedTasks, expectedTasks := {}, 0, |originals|;
      upscaledTaskIDs, originalTaskCount := {}, |originals|;
      originalTasksDone, jobEnded := false, false;
    }

    method FirstSection(id: string) returns (snapshot: Snapshot, sendEOF: bool)
      modifies this
      ensures BooksNow() == AfterReport(old(BooksNow()), id)
      ensures snapshot == Snapshot(completedTasks, expectedTasks)
      ensures sendEOF <==> FansOut(Count(old(BooksNow()), id))
    {
      var alreadyCounted := id in completedTaskIDs;
      if !alreadyCounted {
        completedTaskIDs := completedTaskIDs + {id};
        completedTasks := completedTasks + 1;
      }
      snapshot := Snapshot(completedTasks, expectedTasks);
      var originalCompleted := CountOriginals();
      sendEOF := false;
      if originalCompleted >= originalTaskCount && !originalTasksDone {
        originalTasksDone := true;
        sendEOF := true;
      }
    }

    method CountOriginals() returns (originalCompleted: nat)
      ensures originalCompleted == OriginalsCompleted(BooksNow())
    {
      originalCompleted := 0;
      var left := completedTaskIDs;
      ghost var seen: set<string> := {};
      while left != {}
        invariant left + seen == completedTaskIDs && left !! seen
        invariant originalCompleted == |seen - upscaledTaskIDs|
        decreases |left|
      {
        var id :| id in left;
        if id !in upscaledTaskIDs {
          originalCompleted := originalCompleted + 1;
          assert (seen + {id}) - upscaledTaskIDs == (seen - upscaledTaskIDs) + {id};
        } else {
          assert (seen + {id}) - upscaledTaskIDs == seen - upscaledTaskIDs;
        }
        left := left - {id};
        seen := seen + {id};
      }
      assert seen == completedTaskIDs;
    }

    method SecondSection(snapshot: Snapshot) returns (runEnd: bool)
      modifies this`jobEnded
      ensures BooksNow() == AfterCheck(old(BooksNow()), snapshot)
      ensures runEnd <==> Ends(old(BooksNow()), snapshot)
    {
      var alreadyEnded := jobEnded;
      if snapshot.completed >= snapshot.expected && !alreadyEnded {
        jobEnded := true;
      }
      runEnd := snapshot.completed >= snapshot.expected && !alreadyEnded;
    }

    /** A task that is taken away counts as completed at once. */
    method MarkRemoved(id: string)
      modifies this`completedTaskIDs, this`completedTasks
      ensures BooksNow() == Count(old(BooksNow()), id)
    {
      if id !in completedTaskIDs {
        completedTaskIDs := completedTaskIDs + {id};
        completedTasks := completedTasks + 1;
      }
    }

    /** A task that is added is expected, whatever its id. */
    method MarkAdded(id: string)
      modifies this`expectedTasks, this`upscaledTaskIDs
      ensures BooksNow() == AfterAddition(old(BooksNow()), id)
    {
      expectedTasks := expectedTasks + 1;
      upscaledTaskIDs := upscaledTaskIDs + {id};
    }
  }

  // ---------- interleaved handlers ----------

  /** A handler passes the first section; it passes the second; a task is taken away; one is added. */
  datatype Event = Report(handler: nat, id: string) | Check(handler: nat) | Removal(id: string) | Addition(id: string)

  /** `tasks` holds the original and all added tasks, and `readded` counts the additions of one that
      was there before; `found` are the tasks there were when a report first found enough counted. */
  datatype Run = Run(books: Books, pending: map<nat, Snapshot>, runEnds: nat, fanOuts: nat,
                     tasks: set<string>, readded: nat, reported: set<string>, removed: set<string>,
                     found: Option<set<string>>)

  predicate Possible(r: Run, e: Event) {
    match e
    case Report(h, _) => h !in r.pending
    case Check(h) => h in r.pending
    case Removal(_) => true
    case Addition(_) => true
  }

  /** There are as many strays, ids of no task, as tasks are missing and additions were repeated. */
  predicate Outweighed(tasks: set<string>, readded: nat, ids: set<string>) {
    |tasks - ids| + readded <= |ids - tasks|
  }

  function Next(r: Run, e: Event): Run
    requires Possible(r, e)
  {
    match e
    case Report(h, id) =>
      var b := AfterReport(r.books, id);
      r.(books := b, pending := r.pending[h := Snapshot(b.completed, b.expected)],
         fanOuts := r.fanOuts + if FansOut(Count(r.books, id)) then 1 else 0,
         reported := r.reported + {id},
         found := if r.found.None? && Outweighed(r.tasks, r.readded, b.completedIDs) then Some(r.tasks) else r.found)
    case Check(h) =>
      r.(books := AfterCheck(r.books, r.pending[h]), pending := r.pending - {h},
         runEnds := r.runEnds + if Ends(r.books, r.pending[h]) then 1 else 0)
    case Removal(id) => r.(books := Count(r.books, id), removed := r.removed + {id})
    case Addition(id) =>
      r.(books := AfterAddition(r.books, id), tasks := r.tasks + {id},
         readded := r.readded + if id in r.tasks then 1 else 0)
  }

  function After(originals: set<string>, events: seq<Event>): Option<Run> {
    if events == [] then Some(Run(Start(originals), map[], 0, 0, originals, 0, {}, {}, None))
    else
      match After(originals, events[..|events| - 1])
      case None => None
      case Some(r) => if Possible(r, events[|events| - 1]) then Some(Next(r, events[|events| - 1])) else None
  }

  // ---------- what every step keeps ----------

  predicate Complete(s: Snapshot) {
    s.completed >= s.expected
  }

  ghost predicate SomePendingComplete(pending: map<nat, Snapshot>) {
    exists h :: h in pending && Complete(pending[h])
  }

  ghost predicate Kept(r: Run, originals: set<string>) {
    && r.books.completed == |r.books.completedIDs|
    && r.books.expected == |r.tasks| + r.readded
    && r.books.originalCount == |originals|
    && r.tasks == originals + r.books.upscaled
    && r.books.completedIDs == r.reported + r.removed
    && r.runEnds == (if r.books.ended then 1 else 0)
    && r.fanOuts == (if r.books.originalsDone then 1 else 0)
    && (r.found.Some? <==> r.books.ended || SomePendingComplete(r.pending))
  }

  /** The leader's comparison of two numbers, in terms of the ids. */
  lemma CompleteIffOutweighed(tasks: set<string>, readded: nat, ids: set<string>)
    ensures |ids| >= |tasks| + readded <==> Outweighed(tasks, readded, ids)
  {
    assert ids == (ids * tasks) + (ids - tasks);
    assert tasks == (ids * tasks) + (tasks - ids);
  }

  lemma ReportCounts(b: Books, id: string)
    ensures AfterReport(b, id).completedIDs == b.completedIDs + {id}
    ensures b.completed == |b.completedIDs| ==> AfterReport(b, id).completed == |b.completedIDs + {id}|
  {
    if id in b.completedIDs {
      assert b.completedIDs + {id} == b.completedIDs;
    }
  }

  lemma AddedToFirst(ids: set<string>, reported: set<string>, removed: set<string>, id: string)
    requires ids == reported + removed
    ensures ids + {id} == (reported + {id}) + removed
  {}

  lemma ReportKeeps(r: Run, originals: set<string>, h: nat, id: string)
    requires Kept(r, originals) && h !in r.pending
    ensures Kept(Next(r, Report(h, id)), originals)
  {
    var r' := Next(r, Report(h, id));
    PendingAdded(r.pending, h, r'.pending[h]);
    ReportCounts(r.books, id);
    AddedToFirst(r.books.completedIDs, r.reported, r.removed, id);
    CompleteIffOutweighed(r.tasks, r.readded, r'.books.completedIDs);
  }

  lemma PendingAdded(pending: map<nat, Snapshot>, h: nat, s: Snapshot)
    requires h !in pending
    ensures SomePendingComplete(pending[h := s]) <==> SomePendingComplete(pending) || Complete(s)
  {
    if SomePendingComplete(pending) {
      var o :| o in pending && Complete(pending[o]);
      assert pending[h := s][o] == pending[o];
    }
    if Complete(s) {
      assert pending[h := s][h] == s;
    }
  }

  lemma PendingRemoved(pending: map<nat, Snapshot>, h: nat)
    requires h in pending
    ensures SomePendingComplete(pending) <==> SomePendingComplete(pending - {h}) || Complete(pending[h])
  {
    if SomePendingComplete(pending - {h}) {
      var o :| o in pending - {h} && Complete((pending - {h})[o]);
      assert pending[o] == (pending - {h})[o];
    }
    if SomePendingComplete(pending) && !Complete(pending[h]) {
      var o :| o in pending && Complete(pending[o]);
      assert (pending - {h})[o] == pending[o];
    }
  }

  lemma StepKeeps(r: Run, originals: set<string>, e: Event)
    requires Kept(r, originals) && Possible(r, e)
    ensures Kept(Next(r, e), originals)
  {
    match e
    case Report(h, id) => ReportKeeps(r, originals, h, id);
    case Check(h) => CheckKeeps(r, originals, h);
    case Removal(id) => {}
    case Addition(id) => AdditionKeeps(r, originals, id);
  }

  lemma CheckKeeps(r: Run, originals: set<string>, h: nat)
    requires Kept(r, originals) && h in r.pending
    ensures Kept(Next(r, Check(h)), originals)
  {
    PendingRemoved(r.pending, h);
  }

  lemma AdditionKeeps(r: Run, originals: set<string>, id: string)
    requires Kept(r, originals)
    ensures Kept(Next(r, Addition(id)), originals)
  {
    assert r.tasks + {id} == originals + (r.books.upscaled + {id});
    if id in r.tasks {
      assert r.tasks + {id} == r.tasks;
    }
  }

  lemma {:induction false} RunsKeep(originals: set<string>, events: seq<Event>)
    requires After(originals, events).Some?
    ensures Kept(After(originals, events).value, originals)
  {
    if events == [] {
    } else {
      RunsKeep(originals, events[..|events| - 1]);
      StepKeeps(After(originals, events[..|events| - 1]).value, originals, events[|events| - 1]);
    }
  }

  /** In every interleaving, with any reports, removals and additions: exactly the ids reported or removed
      are counted, each once, and the run ends and the end markers for added tasks are sent at most once. */
  lemma NeverTwice(originals: set<string>, events: seq<Event>)
    requires After(originals, events).Some?
    ensures var r := After(originals, events).value;
      && r.books.completedIDs == r.reported + r.removed && r.books.completed == |r.reported + r.removed|
      && r.runEnds <= 1 && r.fanOuts <= 1
  {
    RunsKeep(originals, events);
  }

  /** When all handlers are through, the run has ended if and only if at some report there were as many
      strays among the counted ids as tasks were missing and additions repeated. In particular a stray
      id can stand in for a missing task, and a repeated addition needs a stray to make up for it. */
  lemma EndsIffOutweighed(originals: set<string>, events: seq<Event>)
    requires After(originals, events).Some? && After(originals, events).value.pending == map[]
    ensures After(originals, events).value.runEnds == 1 <==> exists k :: OutweighedAt(originals, events, k)
  {
    RunsKeep(originals, events);
    FoundIff(originals, events);
  }

  predicate OutweighedAt(originals: set<string>, events: seq<Event>, k: int) {
    && 0 <= k < |events| && events[k].Report? && After(originals, events[..k + 1]).Some?
    && var r := After(originals, events[..k + 1]).value;
    Outweighed(r.tasks, r.readded, r.books.completedIDs)
  }

  lemma {:induction false} FoundIff(originals: set<string>, events: seq<Event>)
    requires After(originals, events).Some?
    ensures After(originals, events).value.found.Some? <==> exists k :: OutweighedAt(originals, events, k)
  {
    if events == [] {
    } else {
      var before := events[..|events| - 1];
      FoundIff(originals, before);
      assert events[..|events|] == events;
      forall k ensures OutweighedAt(originals, events, k) <==>
          OutweighedAt(originals, before, k) || (k == |events| - 1 && OutweighedAt(originals, events, k))
      {
        if 0 <= k < |before| {
          assert before[..k + 1] == events[..k + 1];
        }
      }
      assert OutweighedAt(originals, events, |events| - 1) <==>
        events[|events| - 1].Report? && var r := After(originals, events).value; Outweighed(r.tasks, r.readded, r.books.completedIDs);
    }
  }

  /** At this report the counted ids that are not added tasks make up for the original tasks. */
  predicate OriginalsOutweighedAt(originals: set<string>, events: seq<Event>, k: int) {
    && 0 <= k < |events| && events[k].Report? && After(originals, events[..k + 1]).Some?
    && var b := After(originals, events[..k + 1]).value.books;
    Outweighed(originals, 0, b.completedIDs - b.upscaled)
  }

  lemma DoneAfterReport(r: Run, originals: set<string>, h: nat, id: string)
    requires Kept(r, originals) && h !in r.pending
    ensures var b := Next(r, Report(h, id)).books;
      b.originalsDone <==> r.books.originalsDone || Outweighed(originals, 0, b.completedIDs - b.upscaled)
  {
    var b := Next(r, Report(h, id)).books;
    CompleteIffOutweighed(originals, 0, b.completedIDs - b.upscaled);
  }

  lemma {:induction false} DoneIff(originals: set<string>, events: seq<Event>)
    requires After(originals, events).Some?
    ensures After(originals, events).value.books.originalsDone <==> exists k :: OriginalsOutweighedAt(originals, events, k)
  {
    if events == [] {
    } else {
      var before, e := events[..|events| - 1], events[|events| - 1];
      DoneIff(originals, before);
      assert events[..|events|] == events;
      forall k ensures OriginalsOutweighedAt(originals, events, k) <==>
          OriginalsOutweighedAt(originals, before, k) || (k == |events| - 1 && OriginalsOutweighedAt(originals, events, k))
      {
        if 0 <= k < |before| {
          assert before[..k + 1] == events[..k + 1];
        }
      }
      if e.Report? {
        RunsKeep(originals, before);
        DoneAfterReport(After(originals, before).value, originals, e.handler, e.id);
      }
      assert OriginalsOutweighedAt(originals, events, |events| - 1) <==>
        e.Report? && var b := After(originals, events).value.books; Outweighed(originals, 0, b.completedIDs - b.upscaled);
    }
  }

  /** The end markers for added tasks are sent, once, if and only if at some report at least as many ids
      that are neither original nor added tasks were counted as original tasks were missing, where an
      original task that was added again is missing for good. */
  lemma FansOutIffOutweighed(originals: set<string>, events: seq<Event>)
    requires After(originals, events).Some?
    ensures After(originals, events).value.fanOuts == 1 <==> exists k :: OriginalsOutweighedAt(originals, events, k)
  {
    RunsKeep(originals, events);
    DoneIff(originals, events);
  }

  lemma {:induction false} OriginalsReported(originals: set<string>, events: seq<Event>)
    requires originals != {} && After(originals, events).Some?
    requires originals <= After(originals, events).value.reported
    requires originals !! After(originals, events).value.books.upscaled
    ensures After(originals, events).value.books.originalsDone
  {
    if events == [] {
      assert false;
    } else {
      var e, before := events[|events| - 1], After(originals, events[..|events| - 1]).value;
      if originals <= before.reported {
        OriginalsReported(originals, events[..|events| - 1]);
      } else {
        var b := After(originals, events).value.books;
        RunsKeep(originals, events[..|events| - 1]);
        RunsKeep(originals, events);
        DoneAfterReport(before, originals, e.handler, e.id);
        assert originals - (b.completedIDs - b.upscaled) == {};
      }
    }
  }

  /** Once every original task has reported, and none of them was added again, the end markers for added
      tasks have been sent exactly once. */
  lemma FansOutOnce(originals: set<string>, events: seq<Event>)
    requires originals != {} && After(originals, events).Some?
    requires originals <= After(originals, events).value.reported
    requires originals !! After(originals, events).value.books.upscaled
    ensures After(originals, events).value.fanOuts == 1
  {
    OriginalsReported(originals, events);
    RunsKeep(originals, events);
  }

  // ---------- without strays ----------

  /** Every report and every removal is about a task there is. */
  ghost predicate OnlyTasks(originals: set<string>, events: seq<Event>) {
    forall k :: 0 <= k < |events| ==> AboutTask(originals, events, k)
  }

  predicate AboutTask(originals: set<string>, events: seq<Event>, k: nat)
    requires k < |events|
  {
    After(originals, events[..k]).Some? && (events[k].Report? || events[k].Removal?) ==>
      events[k].id in After(originals, events[..k]).value.tasks
  }

  /** Enough was found only when all tasks were in, and the originals were done only when they were. */
  ghost predicate Prompt(r: Run, originals: set<string>) {
    && r.books.completedIDs <= r.tasks
    && (r.found.Some? ==> r.found.value <= r.books.completedIDs)
    && (r.books.originalsDone ==> originals <= r.books.completedIDs)
  }

  lemma OriginalsAllIn(originals: set<string>, b: Books)
    requires b.completedIDs <= originals + b.upscaled && OriginalsCompleted(b) >= |originals|
    ensures originals <= b.completedIDs
  {
    SubsetOfSize(b.completedIDs - b.upscaled, originals);
  }

  lemma SubsetOfSize<T>(a: set<T>, b: set<T>)
    requires a <= b && |a| >= |b|
    ensures a == b
  {
    assert b == a + (b - a);
  }

  lemma StepKeepsPrompt(r: Run, originals: set<string>, e: Event)
    requires Kept(r, originals) && Prompt(r, originals) && Possible(r, e)
    requires e.Report? || e.Removal? ==> e.id in r.tasks
    ensures Prompt(Next(r, e), originals)
  {
    if e.Report? {
      ReportKeepsPrompt(r, originals, e.handler, e.id);
    }
  }

  lemma ReportKeepsPrompt(r: Run, originals: set<string>, h: nat, id: string)
    requires Kept(r, originals) && Prompt(r, originals) && h !in r.pending && id in r.tasks
    ensures Prompt(Next(r, Report(h, id)), originals)
  {
    var b := AfterReport(r.books, id);
    assert b.completedIDs == r.books.completedIDs + {id};
    OutweighedWithoutStrays(r.tasks, r.readded, b.completedIDs);
    if FansOut(Count(r.books, id)) {
      OriginalsAllIn(originals, b);
    }
  }

  lemma OutweighedWithoutStrays(tasks: set<string>, readded: nat, ids: set<string>)
    requires ids <= tasks
    ensures Outweighed(tasks, readded, ids) <==> tasks <= ids && readded == 0
  {
    assert ids - tasks == {};
    assert tasks <= ids <==> tasks - ids == {};
  }

  lemma {:induction false} RunsArePrompt(originals: set<string>, events: seq<Event>)
    requires After(originals, events).Some? && OnlyTasks(originals, events)
    ensures Prompt(After(originals, events).value, originals)
  {
    if events == [] {
    } else {
      var before := events[..|events| - 1];
      assert AboutTask(originals, events, |events| - 1);
      forall k | 0 <= k < |before| ensures AboutTask(originals, before, k) {
        assert before[..k] == events[..k];
        assert AboutTask(originals, events, k);
      }
      RunsArePrompt(originals, before);
      RunsKeep(originals, before);
      StepKeepsPrompt(After(originals, before).value, originals, events[|events| - 1]);
    }
  }

  lemma {:induction false} TasksOfRun(originals: set<string>, events: seq<Event>)
    requires After(originals, events).Some? && forall k :: 0 <= k < |events| ==> !events[k].Addition?
    ensures var r := After(originals, events).value;
      r.tasks == originals && (r.found.Some? ==> r.found.value == originals)
  {
    if events == [] {
    } else {
      TasksOfRun(originals, events[..|events| - 1]);
    }
  }

  /** If all reports and removals are about tasks there are, the run does not end before a report at
      which all tasks there were are in, and the end markers are not sent before all original tasks are
      in. Without additions, the run ends only when every task of the job is in. */
  lemma NeverEarly(originals: set<string>, events: seq<Event>)
    requires After(originals, events).Some? && OnlyTasks(originals, events)
    ensures var r := After(originals, events).value;
      && (r.runEnds == 1 ==> r.found.Some? && r.found.value <= r.books.completedIDs)
      && (r.fanOuts == 1 ==> originals <= r.books.completedIDs)
      && (r.runEnds == 1 && (forall k :: 0 <= k < |events| ==> !events[k].Addition?) ==> originals <= r.books.completedIDs)
  {
    RunsKeep(originals, events);
    RunsArePrompt(originals, events);
    if forall k :: 0 <= k < |events| ==> !events[k].Addition? {
      TasksOfRun(originals, events);
    }
  }

  /** The first `n` ids are reported, each by a handler of its own. */
  function Reports(ids: seq<string>, n: nat): seq<Event>
    requires n <= |ids|
  {
    if n == 0 then [] else Reports(ids, n - 1) + [Report(n - 1, ids[n - 1])]
  }

  /** The ids are counted, and no second section has run. */
  ghost predicate Counted(r: Run, ids: set<string>, n: nat, expected: nat) {
    && r.books.completedIDs == ids && r.books.completed == n && r.books.expected == expected
    && !r.books.ended && r.runEnds == 0
    && (forall h :: h in r.pending ==> h < n)
    && (n > 0 ==> n - 1 in r.pending && r.pending[n - 1] == Snapshot(n, expected))
  }

  lemma CountedNext(r: Run, ids: set<string>, n: nat, id: string, expected: nat)
    requires Counted(r, ids, n, expected) && id !in ids
    ensures Possible(r, Report(n, id)) && Counted(Next(r, Report(n, id)), ids + {id}, n + 1, expected)
  {
    var b := AfterReport(r.books, id);
    assert b.completedIDs == ids + {id} && b.completed == n + 1 && b.expected == expected && !b.ended;
  }

  lemma CountedEnds(r: Run, ids: set<string>, n: nat)
    requires n > 0 && Counted(r, ids, n, n)
    ensures Possible(r, Check(n - 1))
    ensures Next(r, Check(n - 1)).runEnds == 1 && Next(r, Check(n - 1)).books.completedIDs == ids
  {}

  lemma NextIsNew(ids: seq<string>, n: nat)
    requires n < |ids| && forall i, j :: 0 <= i < j < |ids| ==> ids[i] != ids[j]
    ensures ids[n] !in Ids(ids, n) && Ids(ids, n + 1) == Ids(ids, n) + {ids[n]}
  {}

  function Ids(ids: seq<string>, n: nat): set<string>
    requires n <= |ids|
  {
    set i | 0 <= i < n :: ids[i]
  }

  lemma {:induction false} ReportsCount(originals: set<string>, ids: seq<string>, n: nat)
    requires n <= |ids| && forall i, j :: 0 <= i < j < |ids| ==> ids[i] != ids[j]
    ensures After(originals, Reports(ids, n)).Some?
    ensures Counted(After(originals, Reports(ids, n)).value, Ids(ids, n), n, |originals|)
  {
    if n == 0 {
      assert Ids(ids, 0) == {};
    } else {
      ReportsCount(originals, ids, n - 1);
      NextIsNew(ids, n - 1);
      CountedNext(After(originals, Reports(ids, n - 1)).value, Ids(ids, n - 1), n - 1, ids[n - 1], |originals|);
      OneMore(originals, Reports(ids, n - 1), Report(n - 1, ids[n - 1]));
    }
  }

  /** Any job is ended by as many ids of no task as it has tasks, without one of its tasks in. */
  lemma StraysEndRun(originals: set<string>, strays: seq<string>)
    requires |strays| == |originals| > 0 && forall id :: id in strays ==> id !in originals
    requires forall i, j :: 0 <= i < j < |strays| ==> strays[i] != strays[j]
    ensures var r := After(originals, Reports(strays, |strays|) + [Check(|strays| - 1)]);
      r.Some? && r.value.runEnds == 1 && r.value.books.completedIDs !! originals
  {
    var n := |strays|;
    ReportsCount(originals, strays, n);
    var r := After(originals, Reports(strays, n)).value;
    CountedEnds(r, Ids(strays, n), n);
    OneMore(originals, Reports(strays, n), Check(n - 1));
    forall id | id in Ids(strays, n) ensures id !in originals {
      assert id in strays;
    }
  }

  lemma OneMore(originals: set<string>, events: seq<Event>, e: Event)
    ensures After(originals, events + [e]) == match After(originals, events)
      case None => None
      case Some(r) => if Possible(r, e) then Some(Next(r, e)) else None
  {
    assert (events + [e])[..|events|] == events;
  }

  // ---------- additions ----------

  lemma {:induction false} NotFoundAfterReaddition(originals: set<string>, events: seq<Event>, k: nat)
    requires After(originals, events).Some? && OnlyTasks(originals, events) && k <= |events|
    requires After(originals, events[..k]).Some?
    requires After(originals, events[..k]).value.readded > 0 && After(originals, events[..k]).value.found.None?
    ensures var r := After(originals, events).value; r.readded > 0 && r.found.None?
  {
    if k == |events| {
      assert events[..k] == events;
    } else {
      var before := events[..|events| - 1];
      assert before[..k] == events[..k];
      assert AboutTask(originals, events, |events| - 1);
      forall j | 0 <= j < |before| ensures AboutTask(originals, before, j) {
        assert before[..j] == events[..j];
        assert AboutTask(originals, events, j);
      }
      NotFoundAfterReaddition(originals, before, k);
      RunsArePrompt(originals, events);
      var r := After(originals, events).value;
      OutweighedWithoutStrays(r.tasks, r.readded, r.books.completedIDs);
    }
  }

  /** A removed task whose id is added again is counted already but expected once more: without strays
      the run then never ends, unless enough had been found before. */
  lemma ReadditionKeepsFromEnding(originals: set<string>, events: seq<Event>, k: nat)
    requires After(originals, events).Some? && OnlyTasks(originals, events) && k <= |events|
    requires After(originals, events[..k]).Some?
    requires After(originals, events[..k]).value.readded > 0 && After(originals, events[..k]).value.found.None?
    ensures After(originals, events).value.runEnds == 0
  {
    NotFoundAfterReaddition(originals, events, k);
    RunsKeep(originals, events);
  }

  lemma {:induction false} AllReportedFound(originals: set<string>, events: seq<Event>)
    requires originals != {} && After(originals, events).Some? && After(originals, events).value.readded == 0
    requires After(originals, events).value.tasks <= After(originals, events).value.reported
    ensures After(originals, events).value.found.Some?
  {
    RunsKeep(originals, events);
    if events == [] {
      assert false;
    } else {
      var before := After(originals, events[..|events| - 1]).value;
      var r := After(originals, events).value;
      if before.tasks <= before.reported {
        AllReportedFound(originals, events[..|events| - 1]);
      } else {
        assert r.tasks - r.books.completedIDs == {};
      }
    }
  }

  /** After every task, the added ones too, has reported, no id was added twice, and all handlers are
      through, the run has ended exactly once. */
  lemma EndsOnce(originals: set<string>, events: seq<Event>)
    requires originals != {} && After(originals, events).Some?
    requires After(originals, events).value.pending == map[] && After(originals, events).value.readded == 0
    requires After(originals, events).value.tasks <= After(originals, events).value.reported
    ensures After(originals, events).value.runEnds == 1
  {
    AllReportedFound(originals, events);
    RunsKeep(originals, events);
  }
}
