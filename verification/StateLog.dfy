/** The state log of a task: a worker that appends processed ids to a file in batches, and the
    parser that reads them back after a restart. */
module StateLog {
  import opened Maybe
  import opened Text
  import opened BlockStorage
  import opened FileNames
  import SourceTask

  // ---------- the text of a log ----------

  /** One line for each id. */
  function LogText(ids: seq<string>): string {
    if ids == [] then "" else ids[0] + "\n" + LogText(ids[1..])
  }

  lemma {:induction false} LogTextAppend(a: seq<string>, b: seq<string>)
    ensures LogText(a + b) == LogText(a) + LogText(b)
  {
    if a == [] {
      assert a + b == b;
    } else {
      assert (a + b)[1..] == a[1..] + b;
      LogTextAppend(a[1..], b);
    }
  }

  /** What a flush writes. */
  lemma {:induction false} JoinedIsLogText(ids: seq<string>)
    requires ids != []
    ensures JoinLines(ids) + "\n" == LogText(ids)
  {
    if |ids| == 1 {
      assert ids[1..] == [];
    } else {
      JoinedIsLogText(ids[1..]);
    }
  }

  // ---------- reading it back ----------

  function ParseLines(lines: seq<string>): seq<string> {
    if lines == [] then []
    else
      var before := ParseLines(lines[..|lines| - 1]);
      var line := TrimSpace(lines[|lines| - 1]);
      if line != "" then before + [line] else before
  }

  method ParseIds(content: string) returns (ids: seq<string>)
    ensures ids == ParseLines(SplitLines(content))
  {
    ids := [];
    var lines := SplitLines(content);
    var i := 0;
    while i < |lines|
      invariant 0 <= i <= |lines|
      invariant ids == ParseLines(lines[..i])
    {
      assert lines[..i + 1][..i] == lines[..i];
      var line := TrimSpace(lines[i]);
      if line != "" {
        ids := ids + [line];
      }
      i := i + 1;
    }
    assert lines[..i] == lines;
  }

  predicate GoodId(id: string) {
    id != "" && '\n' !in id && TrimSpace(id) == id
  }

  predicate GoodIds(ids: seq<string>) {
    forall i :: 0 <= i < |ids| ==> GoodId(ids[i])
  }

  lemma {:induction false} ParseAppend(a: seq<string>, b: seq<string>)
    ensures ParseLines(a + b) == ParseLines(a) + ParseLines(b)
  {
    if b == [] {
      assert a + b == a;
    } else {
      assert (a + b)[..|a + b| - 1] == a + b[..|b| - 1];
      ParseAppend(a, b[..|b| - 1]);
    }
  }

  lemma ParseOne(line: string)
    ensures ParseLines([line]) == if TrimSpace(line) != "" then [TrimSpace(line)] else []
  {
    assert [line][..0] == [];
  }

  /** Reading a log gives back the ids it was written from, in order. */
  lemma {:induction false} LogRoundTrip(ids: seq<string>)
    requires GoodIds(ids)
    ensures ParseLines(SplitLines(LogText(ids))) == ids
  {
    if ids == [] {
      ParseOne("");
    } else {
      LogRoundTrip(ids[1..]);
      ParseFirstLine(ids[0], LogText(ids[1..]));
      assert ids == [ids[0]] + ids[1..];
    }
  }

  lemma ParseFirstLine(id: string, rest: string)
    requires GoodId(id)
    ensures ParseLines(SplitLines(id + "\n" + rest)) == [id] + ParseLines(SplitLines(rest))
  {
    SplitAfterNewline(id, rest);
    SplitWithoutNewline(id);
    ParseAppend([id], SplitLines(rest));
    ParseOne(id);
  }

  /** The ids of source tuples are of this kind. */
  lemma TupleIdsAreGood(n: nat, x: nat)
    requires n > 0
    ensures GoodId(SourceTask.TupleId(n, x))
  {
    var id := SourceTask.TupleId(n, x);
    assert id[0] == 's';
    var d := Decimal(x + 1);
    assert id[|id| - 1] == d[|d| - 1];
    assert '\n' !in "src-task-" && '\n' !in "-tuple-";
    assert '\n' !in Decimal(x % n) && '\n' !in d;
  }

  // ---------- the worker ----------

  datatype Event = Line(text: string) | Tick | Stop | Closed

  /** The lines the worker takes in before it ends. */
  function Received(events: seq<Event>): seq<string> {
    if events == [] then []
    else
      match events[0]
      case Line(text) => [text] + Received(events[1..])
      case Tick => Received(events[1..])
      case Stop => []
      case Closed => []
  }

  function TextsIn(event: Event): seq<string> {
    if event.Line? then [event.text] else []
  }

  predicate IsEnd(event: Event) {
    event.Stop? || event.Closed?
  }

  predicate Ends(events: seq<Event>) {
    events != [] && (IsEnd(events[0]) || Ends(events[1..]))
  }

  const FLUSH_SIZE := 50

  /** What a read of the file would return; a missing file reads as empty. */
  ghost function TextOf(dirs: map<string, FileDir>, name: string): string
    requires AllConsistent(dirs)
  {
    if DirOf(name) in dirs then Contents(dirs[DirOf(name)]) else ""
  }

  ghost predicate Answer(dirs: map<string, FileDir>, name: string, text: string)
  {
    AllConsistent(dirs) && text == TextOf(dirs, name)
  }

  /** A read of the file can only give one line for each of the ids. */
  ghost predicate Holds(dirs: map<string, FileDir>, name: string, ids: seq<string>) {
    forall text :: Answer(dirs, name, text) ==> text == LogText(ids)
  }

  /** The file after one more block with the lines of `buffer`. */
  ghost function Batched(dirs: map<string, FileDir>, name: string, buffer: seq<string>, client: string): FileDir {
    Appended(FileOrEmpty(dirs, name), JoinLines(buffer) + "\n", client)
  }

  lemma BatchAdds(dirs: map<string, FileDir>, name: string, logged: seq<string>, buffer: seq<string>, client: string)
    requires AllConsistent(dirs) && Holds(dirs, name, logged) && buffer != []
    ensures Holds(dirs[DirOf(name) := Batched(dirs, name, buffer, client)], name, logged + buffer)
  {
    assert Answer(dirs, name, TextOf(dirs, name));
    JoinedIsLogText(buffer);
    LogTextAppend(logged, buffer);
    BatchIsAppended(dirs, name, JoinLines(buffer) + "\n", client);
  }

  lemma BatchIsAppended(dirs: map<string, FileDir>, name: string, content: string, client: string)
    requires AllConsistent(dirs)
    ensures var f := Appended(FileOrEmpty(dirs, name), content, client);
      Consistent(f) && Contents(f) == TextOf(dirs, name) + content
  {
    EmptyPieces(name);
    AppendedPieces(FileOrEmpty(dirs, name), content, client);
  }

  class AppendWorker {
    const store: BlockStore
    const destFile: string
    const clientID: string
    var buffer: seq<string>
    ghost var logged: seq<string>

    /** The file exists or can be created, so that appends succeed. */
    ghost predicate CanAppend()
      reads this, store
    {
      store.Valid() && (DirOf(destFile) in store.dirs || !Occupied(store.dirs, DirOf(destFile)))
    }

    /** The file holds one line for each logged id, and the buffer is not full. */
    ghost predicate Valid()
      reads this, store
    {
      CanAppend() && Holds(store.dirs, destFile, logged) && |buffer| < FLUSH_SIZE
    }

    constructor (store: BlockStore, destFile: string, clientID: string, ghost logged: seq<string>)
      requires store.Valid() && Holds(store.dirs, destFile, logged)
      requires DirOf(destFile) in store.dirs || !Occupied(store.dirs, DirOf(destFile))
      ensures Valid() && buffer == [] && this.logged == logged
      ensures this.store == store && this.destFile == destFile && this.clientID == clientID
    {
      this.store, this.destFile, this.clientID := store, destFile, clientID;
      buffer := [];
      this.logged := logged;
    }

    /** Appends the buffered lines as one block; nothing happens when there are none. */
    method Flush()
      requires CanAppend() && Holds(store.dirs, destFile, logged)
      modifies this, store
      ensures Valid() && buffer == [] && logged == old(logged) + old(buffer)
      ensures store.dirs == if old(buffer) == [] then old(store.dirs)
        else old(store.dirs)[DirOf(destFile) := Batched(old(store.dirs), destFile, old(buffer), clientID)]
    {
      if |buffer| == 0 {
        return;
      }
      BatchAdds(store.dirs, destFile, logged, buffer, clientID);
      var content := JoinLines(buffer) + "\n";
      logged := logged + buffer;
      buffer := [];
      var _ := store.AppendFile(destFile, content, clientID);
    }

    method Take(text: string)
      requires Valid()
      modifies this, store
      ensures Valid() && logged + buffer == old(logged + buffer) + [text]
    {
      buffer := buffer + [text];
      assert logged + buffer == old(logged + buffer) + [text];
      if |buffer| >= FLUSH_SIZE {
        Flush();
      }
    }

    /** One turn of the loop: a line is buffered, a tick flushes, a stop flushes and ends. */
    method Handle(event: Event) returns (ended: bool)
      requires Valid()
      modifies this, store
      ensures Valid() && logged + buffer == old(logged + buffer) + TextsIn(event)
      ensures ended <==> IsEnd(event)
      ensures ended ==> buffer == []
    {
      if event.Line? {
        Take(event.text);
        ended := false;
      } else {
        Flush();
        ended := !event.Tick?;
      }
    }

    /** The worker's loop over the events it selects: every line it received, in order, is in the
        file or, while it is still running, in the buffer of fewer than 50 lines. */
    method Run(events: seq<Event>)
      requires Valid()
      modifies this, store
      ensures Valid()
      ensures logged + buffer == old(logged + buffer) + Received(events)
      ensures Ends(events) ==> buffer == []
      ensures |buffer| < 50
    {
      var i, ended := 0, false;
      ghost var start := logged + buffer;
      while i < |events| && !ended
        invariant 0 <= i <= |events| && Valid() && (ended ==> buffer == [])
        invariant Ends(events) <==> ended || Ends(events[i..])
        invariant Accounted(events, start, logged + buffer, i, ended)
      {
        ghost var before := logged + buffer;
        ended := Handle(events[i]);
        assert Valid();
        AccountedNext(events, start, before, i);
        i := i + 1;
      }
    }
  }

  /** What was taken in since `start` and what is still to come are the lines of all events. */
  ghost predicate Accounted(events: seq<Event>, start: seq<string>, now: seq<string>, i: nat, ended: bool) {
    i <= |events| && now + Rest(events, i, ended) == start + Received(events)
  }

  lemma AccountedNext(events: seq<Event>, start: seq<string>, now: seq<string>, i: nat)
    requires i < |events| && Accounted(events, start, now, i, false)
    ensures Accounted(events, start, now + TextsIn(events[i]), i + 1, IsEnd(events[i]))
    ensures Ends(events[i..]) <==> IsEnd(events[i]) || Ends(events[i + 1..])
  {
    ReceivedStep(events, i);
    Regroup(now, TextsIn(events[i]), Rest(events, i + 1, IsEnd(events[i])));
  }

  lemma Regroup(a: seq<string>, b: seq<string>, c: seq<string>)
    ensures a + (b + c) == a + b + c
  {}

  /** What is still to be received. */
  function Rest(events: seq<Event>, i: nat, ended: bool): seq<string>
    requires i <= |events|
  {
    if ended then [] else Received(events[i..])
  }

  lemma ReceivedStep(events: seq<Event>, i: nat)
    requires i < |events|
    ensures Received(events[i..]) == TextsIn(events[i]) + Rest(events, i + 1, IsEnd(events[i]))
    ensures Ends(events[i..]) <==> IsEnd(events[i]) || Ends(events[i + 1..])
  {
    assert events[i..][0] == events[i] && events[i..][1..] == events[i + 1..];
  }

  /** What a restarted task loads; no file reads as no ids. */
  method FetchState(store: BlockStore, filename: string) returns (ids: seq<string>)
    requires store.Valid()
    ensures ids == ParseLines(SplitLines(TextOf(store.dirs, filename)))
  {
    var content := store.ReadFile(filename);
    match content
    case None =>
      EmptyPieces(filename);
      ParseOne("");
      ids := [];
    case Some(text) =>
      ids := ParseIds(text);
  }

  /** A worker followed by a restart: the restarted task knows exactly the ids the worker had
      flushed, which are all it received if it was stopped. */
  method LogThenRestart(store: BlockStore, name: string, clientID: string, events: seq<Event>) returns (ids: seq<string>)
    requires store.Valid() && !Occupied(store.dirs, DirOf(name)) && GoodIds(Received(events))
    modifies store
    ensures store.Valid() && ids <= Received(events)
    ensures |ids| + 50 > |Received(events)|
    ensures Ends(events) ==> ids == Received(events)
  {
    assert Holds(store.dirs, name, []);
    var worker := new AppendWorker(store, name, clientID, []);
    worker.Run(events);
    ids := FetchState(store, name);
    assert worker.logged + worker.buffer == Received(events);
    assert worker.logged == Received(events)[..|worker.logged|];
    assert Answer(store.dirs, name, TextOf(store.dirs, name));
    LogRoundTrip(worker.logged);
  }
}
