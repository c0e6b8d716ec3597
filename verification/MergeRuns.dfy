/** Whole runs of appends and merges on the replicas of one file: in which order a client's
    appends end up in the merged file. */
module MergeRuns {
  import opened Maybe
  import opened Text
  import opened BlockStorage
  import opened Merging

  /** One append of a client. */
  datatype Label = Label(client: string, content: string)

  /** The replicas' directories. `recent` are each client's appends since the last merge, of which
      replica `r` has the first `reached[r]`; `issued` are all of them since the creation. `base`
      is the block every replica started from, itself made of the appends `parts`. */
  datatype World = World(
    name: string, fileID: nat, primary: nat,
    dirs: seq<FileDir>, reached: seq<map<string, nat>>,
    recent: map<string, seq<string>>, issued: map<string, seq<string>>,
    base: Piece, parts: seq<Label>)

  datatype Step =
    | Append(client: string, content: string, replica: nat)  // a new append, first on one replica
    | CatchUp(client: string, replica: nat)                   // the next append reaches a further replica
    | Merge(content: string)

  function Of<T>(m: map<string, seq<T>>, c: string): seq<T> {
    if c in m then m[c] else []
  }

  function Count(m: map<string, nat>, c: string): nat {
    if c in m then m[c] else 0
  }

  function Bump(m: map<string, nat>, c: string): map<string, nat> {
    m[c := Count(m, c) + 1]
  }

  /** A file just created on `n` replicas by the pipelined create. */
  function Start(n: nat, name: string, fileID: nat, primary: nat, creator: string, content: string): World {
    World(name, fileID, primary,
          seq(n, i => Created(name, content, fileID, primary, creator)), seq(n, i => map[]),
          map[], map[creator := [content]],
          Piece(creator, 1, content), [Label(creator, content)])
  }

  ghost predicate Enabled(w: World, step: Step) {
    && |w.reached| == |w.dirs|
    && AllNumbered(w.dirs)
    && match step
       case Append(c, _, r) => r < |w.dirs| && Count(w.reached[r], c) == |Of(w.recent, c)|
       case CatchUp(c, r) => r < |w.dirs| && Count(w.reached[r], c) < |Of(w.recent, c)|
       case Merge(content) => IsMergeOf(content, UnionOf(w.dirs))
  }

  function Receive(w: World, c: string, r: nat, content: string): World
    requires r < |w.dirs| == |w.reached|
  {
    w.(dirs := w.dirs[r := Appended(w.dirs[r], content, c)],
       reached := w.reached[r := Bump(w.reached[r], c)])
  }

  ghost function Apply(w: World, step: Step): World
    requires Enabled(w, step)
  {
    match step
    case Append(c, content, r) =>
      Receive(w, c, r, content).(recent := w.recent[c := Of(w.recent, c) + [content]],
                                 issued := w.issued[c := Of(w.issued, c) + [content]])
    case CatchUp(c, r) =>
      Receive(w, c, r, Of(w.recent, c)[Count(w.reached[r], c)])
    case Merge(content) =>
      var n := |w.dirs|;
      w.(dirs := seq(n, i => Created(w.name, content, w.fileID, w.primary, MERGED_CLIENT)),
         reached := seq(n, i => map[]), recent := map[],
         base := Piece(MERGED_CLIENT, 1, content),
         parts := Expand(SortedUnion(w), w.base, w.parts))
  }

  ghost function SortedUnion(w: World): (s: seq<Piece>)
    requires AllNumbered(w.dirs)
    requires exists content :: IsMergeOf(content, UnionOf(w.dirs))
    ensures StrictlySorted(s) && Elements(s) == UnionOf(w.dirs)
  {
    var content :| IsMergeOf(content, UnionOf(w.dirs));
    var s :| StrictlySorted(s) && Elements(s) == UnionOf(w.dirs) && content == Concat(s);
    s
  }

  /** The appends behind a sequence of blocks: the base block stands for its parts. */
  function Expand(s: seq<Piece>, base: Piece, parts: seq<Label>): seq<Label> {
    if s == [] then []
    else
      var p := s[|s| - 1];
      Expand(s[..|s| - 1], base, parts) + if p == base then parts else [Label(p.client, p.content)]
  }

  function ConcatLabels(labels: seq<Label>): string {
    if labels == [] then "" else ConcatLabels(labels[..|labels| - 1]) + labels[|labels| - 1].content
  }

  /** The appends of one client, in the order they stand in the file. */
  function Project(labels: seq<Label>, c: string): seq<string> {
    if labels == [] then []
    else
      var l := labels[|labels| - 1];
      Project(labels[..|labels| - 1], c) + if l.client == c then [l.content] else []
  }

  /** The bytes are the appends of all clients, each exactly once, each client's in issue order. */
  ghost predicate InIssueOrder(content: string, issued: map<string, seq<string>>) {
    exists labels :: ConcatLabels(labels) == content && forall c :: Project(labels, c) == Of(issued, c)
  }

  ghost function Exec(from: World, steps: seq<Step>): Option<World> {
    if steps == [] then Some(from)
    else
      match Exec(from, steps[..|steps| - 1])
      case None => None
      case Some(w) =>
        if Enabled(w, steps[|steps| - 1]) then Some(Apply(w, steps[|steps| - 1])) else None
  }

  // ---------- facts about labels and blocks ----------

  lemma {:induction false} ProjectAppend(a: seq<Label>, b: seq<Label>, c: string)
    ensures Project(a + b, c) == Project(a, c) + Project(b, c)
  {
    if b == [] {
      assert a + b == a;
    } else {
      assert (a + b)[..|a + b| - 1] == a + b[..|b| - 1];
      ProjectAppend(a, b[..|b| - 1], c);
    }
  }

  lemma {:induction false} ConcatLabelsAppend(a: seq<Label>, b: seq<Label>)
    ensures ConcatLabels(a + b) == ConcatLabels(a) + ConcatLabels(b)
  {
    if b == [] {
      assert a + b == a;
    } else {
      assert (a + b)[..|a + b| - 1] == a + b[..|b| - 1];
      ConcatLabelsAppend(a, b[..|b| - 1]);
    }
  }

  /** Expanding the base block changes no byte. */
  lemma {:induction false} ExpandKeepsBytes(s: seq<Piece>, base: Piece, parts: seq<Label>)
    requires base.content == ConcatLabels(parts)
    ensures ConcatLabels(Expand(s, base, parts)) == Concat(s)
  {
    if s == [] {
    } else {
      var p := s[|s| - 1];
      ExpandKeepsBytes(s[..|s| - 1], base, parts);
      var last := [Label(p.client, p.content)];
      assert last[..0] == [];
      assert ConcatLabels(last) == ConcatLabels(last[..0]) + p.content;
      ConcatLabelsAppend(Expand(s[..|s| - 1], base, parts), if p == base then parts else last);
    }
  }

  /** The blocks of one client, in order. */
  function OfClient(s: seq<Piece>, c: string): seq<Piece> {
    if s == [] then []
    else OfClient(s[..|s| - 1], c) + if s[|s| - 1].client == c then [s[|s| - 1]] else []
  }

  function ContentsOf(s: seq<Piece>): (r: seq<string>)
    ensures |r| == |s|
    ensures forall i :: 0 <= i < |s| ==> r[i] == s[i].content
  {
    seq(|s|, i requires 0 <= i < |s| => s[i].content)
  }

  lemma {:induction false} OfClientAppend(a: seq<Piece>, b: seq<Piece>, c: string)
    ensures OfClient(a + b, c) == OfClient(a, c) + OfClient(b, c)
  {
    if b == [] {
      assert a + b == a;
    } else {
      assert (a + b)[..|a + b| - 1] == a + b[..|b| - 1];
      OfClientAppend(a, b[..|b| - 1], c);
    }
  }

  lemma {:induction false} OfClientMembers(s: seq<Piece>, c: string)
    ensures forall p :: p in OfClient(s, c) <==> p in s && p.client == c
  {
    if s == [] {
    } else {
      OfClientMembers(s[..|s| - 1], c);
      assert s == s[..|s| - 1] + [s[|s| - 1]];
    }
  }

  lemma {:induction false} OfClientSorted(s: seq<Piece>, c: string)
    requires StrictlySorted(s)
    ensures StrictlySorted(OfClient(s, c))
  {
    if s == [] {
    } else {
      var init := s[..|s| - 1];
      OfClientSorted(init, c);
      OfClientMembers(init, c);
      var f := OfClient(init, c);
      forall i | 0 <= i < |f|
        ensures Before(f[i], s[|s| - 1])
      {
        assert f[i] in init;
      }
    }
  }

  /** Without the base block, a client's share of the expansion is its blocks' contents. */
  lemma ExpandLast(init: seq<Piece>, p: Piece, base: Piece, parts: seq<Label>)
    requires p != base
    ensures Expand(init + [p], base, parts) == Expand(init, base, parts) + [Label(p.client, p.content)]
  {
    assert (init + [p])[..|init|] == init;
  }

  lemma OfClientLast(init: seq<Piece>, p: Piece, c: string)
    ensures ContentsOf(OfClient(init + [p], c))
         == ContentsOf(OfClient(init, c)) + if p.client == c then [p.content] else []
  {
    assert (init + [p])[..|init|] == init;
  }

  lemma {:induction false} ProjectExpandOthers(s: seq<Piece>, base: Piece, parts: seq<Label>, c: string)
    requires base !in s
    ensures Project(Expand(s, base, parts), c) == ContentsOf(OfClient(s, c))
  {
    if s == [] {
    } else {
      var p := s[|s| - 1];
      var init := s[..|s| - 1];
      assert s == init + [p];
      ProjectExpandOthers(init, base, parts, c);
      ExpandLast(init, p, base, parts);
      OfClientLast(init, p, c);
      ProjectAppend(Expand(init, base, parts), [Label(p.client, p.content)], c);
      ProjectOne(Label(p.client, p.content), c);
    }
  }

  lemma ProjectOne(l: Label, c: string)
    ensures Project([l], c) == if l.client == c then [l.content] else []
  {
    assert [l][..0] == [];
  }

  lemma {:induction false} ExpandAppend(a: seq<Piece>, b: seq<Piece>, base: Piece, parts: seq<Label>)
    ensures Expand(a + b, base, parts) == Expand(a, base, parts) + Expand(b, base, parts)
  {
    if b == [] {
      assert a + b == a;
    } else {
      assert (a + b)[..|a + b| - 1] == a + b[..|b| - 1];
      ExpandAppend(a, b[..|b| - 1], base, parts);
    }
  }

  lemma SplitAt(s: seq<Piece>, k: nat)
    requires StrictlySorted(s) && k < |s|
    ensures s == s[..k] + ([s[k]] + s[k + 1..])
    ensures s[k] !in s[..k] && s[k] !in s[k + 1..]
  {
    forall i | 0 <= i < |s| && i != k
      ensures s[i] != s[k]
    {
      if i < k { BeforeAsymmetric(s[i], s[k]); } else { BeforeAsymmetric(s[k], s[i]); }
    }
  }

  /** A client's share of the expansion, around the base block at position `k`. */
  lemma ProjectExpand(s: seq<Piece>, base: Piece, parts: seq<Label>, c: string, k: nat)
    requires StrictlySorted(s) && k < |s| && s[k] == base
    ensures Project(Expand(s, base, parts), c)
         == ContentsOf(OfClient(s[..k], c)) + (Project(parts, c) + ContentsOf(OfClient(s[k + 1..], c)))
  {
    var front, back := s[..k], s[k + 1..];
    SplitAt(s, k);
    ExpandAppend(front, [base] + back, base, parts);
    ExpandAppend([base], back, base, parts);
    ExpandBase(base, parts);
    ProjectAppend(Expand(front, base, parts), parts + Expand(back, base, parts), c);
    ProjectAppend(parts, Expand(back, base, parts), c);
    ProjectExpandOthers(front, base, parts, c);
    ProjectExpandOthers(back, base, parts, c);
  }

  lemma ExpandBase(base: Piece, parts: seq<Label>)
    ensures Expand([base], base, parts) == parts
  {
    assert [base][..0] == [];
  }

  lemma SplitOfClient(s: seq<Piece>, c: string, k: nat)
    requires StrictlySorted(s) && k < |s|
    ensures OfClient(s, c)
         == OfClient(s[..k], c) + ((if s[k].client == c then [s[k]] else []) + OfClient(s[k + 1..], c))
  {
    SplitAt(s, k);
    OfClientAppend(s[..k], [s[k]] + s[k + 1..], c);
    OfClientAppend([s[k]], s[k + 1..], c);
    assert [s[k]][..0] == [];
  }

  // ---------- the invariant of a run ----------

  /** The base block takes number 1 of its client. */
  function Offset(base: Piece, c: string): nat {
    if c == base.client then 1 else 0
  }

  /** `p` is the base block or one of the first `n` recent appends of its client. */
  predicate IsRecent(base: Piece, recent: map<string, seq<string>>, p: Piece, n: nat) {
    var from := Offset(base, p.client);
    p == base ||
    (from < p.sequence <= from + n && n <= |Of(recent, p.client)| && p.content == Of(recent, p.client)[p.sequence - from - 1])
  }

  ghost predicate HoldsExactly(f: FileDir, got: map<string, nat>, base: Piece, recent: map<string, seq<string>>)
    requires Numbered(f)
  {
    forall p :: p in Pieces(f) <==> IsRecent(base, recent, p, Count(got, p.client))
  }

  ghost predicate NumbersRight(f: FileDir, got: map<string, nat>, base: Piece)
    requires Numbered(f)
  {
    forall c :: HighestSequence(Pieces(f), c) == Offset(base, c) + Count(got, c)
  }

  ghost predicate NotAhead(got: map<string, nat>, recent: map<string, seq<string>>) {
    forall c :: Count(got, c) <= |Of(recent, c)|
  }

  /** What a replica holds, and that its next number for each client is the right one. */
  ghost predicate ReplicaRight(f: FileDir, got: map<string, nat>, base: Piece, recent: map<string, seq<string>>) {
    Consistent(f) && HoldsExactly(f, got, base, recent) && NumbersRight(f, got, base) && NotAhead(got, recent)
  }

  ghost predicate ReplicasRight(w: World)
    requires |w.dirs| == |w.reached|
  {
    forall r :: 0 <= r < |w.dirs| ==> ReplicaRight(w.dirs[r], w.reached[r], w.base, w.recent)
  }

  ghost predicate HasAll(w: World, r: nat, c: string)
    requires r < |w.reached|
  {
    Count(w.reached[r], c) == |Of(w.recent, c)|
  }

  ghost predicate SomeoneHasAll(w: World, c: string) {
    exists r :: 0 <= r < |w.reached| && HasAll(w, r, c)
  }

  ghost predicate NothingLost(w: World) {
    forall c :: SomeoneHasAll(w, c)
  }

  ghost predicate BaseRight(w: World) {
    && w.base.sequence == 1
    && w.base.content == ConcatLabels(w.parts)
    && (w.base.client == MERGED_CLIENT || forall c :: c != w.base.client ==> Project(w.parts, c) == [])
  }

  ghost predicate HistoryRight(w: World) {
    forall c :: Project(w.parts, c) + Of(w.recent, c) == Of(w.issued, c)
  }

  ghost predicate ClientsRight(w: World) {
    forall c :: c in w.recent ==> !Less(c, MERGED_CLIENT)
  }

  ghost predicate Inv(w: World) {
    && |w.dirs| == |w.reached| && |w.dirs| > 0 && AllNumbered(w.dirs)
    && ReplicasRight(w) && NothingLost(w) && BaseRight(w) && HistoryRight(w) && ClientsRight(w)
  }

  /** A replica that holds just the base block is right. */
  lemma OnlyBaseIsRight(f: FileDir, base: Piece)
    requires Consistent(f) && Pieces(f) == [base] && base.sequence == 1
    ensures ReplicaRight(f, map[], base, map[])
  {
    var one := [base];
    assert one[..0] == [];
    forall c
      ensures HighestSequence(one, c) == Offset(base, c)
    {
      assert HighestSequence(one[..0], c) == 0;
    }
  }

  lemma OnlyBaseLosesNothing(w: World)
    requires w.recent == map[] && |w.reached| > 0 && w.reached[0] == map[]
    ensures NothingLost(w)
  {
    forall c
      ensures SomeoneHasAll(w, c)
    {
      assert HasAll(w, 0, c);
    }
  }

  lemma StartInv(n: nat, name: string, fileID: nat, primary: nat, creator: string, content: string)
    requires n > 0
    ensures Inv(Start(n, name, fileID, primary, creator, content))
  {
    var w := Start(n, name, fileID, primary, creator, content);
    CreatedPieces(name, content, fileID, primary, creator);
    OnlyBaseIsRight(Created(name, content, fileID, primary, creator), w.base);
    OnlyBaseLosesNothing(w);
    var l := [Label(creator, content)];
    assert l[..0] == [];
    assert ConcatLabels(l) == ConcatLabels(l[..0]) + content;
    assert forall c :: Project(l, c) == Project(l[..0], c) + if creator == c then [content] else [];
  }

  /** Appends added at the end do not change which pieces are among the first few. */
  lemma RecentGrows(base: Piece, old': map<string, seq<string>>, new': map<string, seq<string>>, p: Piece, n: nat)
    requires Of(old', p.client) <= Of(new', p.client) && n <= |Of(old', p.client)|
    ensures IsRecent(base, old', p, n) == IsRecent(base, new', p, n)
  {
  }

  /** The client's next append is the one piece a replica gains by receiving it. */
  lemma RecentGains(base: Piece, recent: map<string, seq<string>>, c: string, n: nat, p: Piece)
    requires n < |Of(recent, c)| && p.client == c
    ensures IsRecent(base, recent, p, n + 1)
       <==> IsRecent(base, recent, p, n) || p == Piece(c, Offset(base, c) + n + 1, Of(recent, c)[n])
  {
  }

  ghost predicate Grows(before: map<string, seq<string>>, after: map<string, seq<string>>) {
    forall c :: Of(before, c) <= Of(after, c)
  }

  lemma OthersStayRight(f: FileDir, got: map<string, nat>, base: Piece, before: map<string, seq<string>>, after: map<string, seq<string>>)
    requires ReplicaRight(f, got, base, before) && Grows(before, after)
    ensures ReplicaRight(f, got, base, after)
  {
    forall p: Piece
      ensures p in Pieces(f) <==> IsRecent(base, after, p, Count(got, p.client))
    {
      assert Of(before, p.client) <= Of(after, p.client);
      assert Count(got, p.client) <= |Of(before, p.client)|;
      RecentGrows(base, before, after, p, Count(got, p.client));
    }
    forall c
      ensures Count(got, c) <= |Of(after, c)|
    {
      assert Of(before, c) <= Of(after, c);
    }
  }

  /** Receiving the client's next append keeps the receiving replica right. */
  lemma ReceiverStaysRight(f: FileDir, got: map<string, nat>, base: Piece, recent: map<string, seq<string>>, c: string)
    requires ReplicaRight(f, got, base, recent) && Count(got, c) < |Of(recent, c)|
    ensures ReplicaRight(Appended(f, Of(recent, c)[Count(got, c)], c), Bump(got, c), base, recent)
  {
    var n := Count(got, c);
    var f' := Appended(f, Of(recent, c)[n], c);
    var last := Piece(c, Offset(base, c) + n + 1, Of(recent, c)[n]);
    assert HighestSequence(Pieces(f), c) == Offset(base, c) + n;
    AppendedPieces(f, Of(recent, c)[n], c);
    HoldsOneMore(f, f', got, base, recent, c, last);
    NumbersOneMore(f, f', got, base, c, last);
  }

  lemma NumbersOneMore(f: FileDir, f': FileDir, got: map<string, nat>, base: Piece, c: string, last: Piece)
    requires Numbered(f) && Numbered(f') && NumbersRight(f, got, base)
    requires Pieces(f') == Pieces(f) + [last] && last.client == c && last.sequence == Offset(base, c) + Count(got, c) + 1
    ensures NumbersRight(f', Bump(got, c), base)
  {
    assert HighestSequence(Pieces(f), c) == Offset(base, c) + Count(got, c);
    AppendedSequences(Pieces(f), last);
    forall d
      ensures HighestSequence(Pieces(f'), d) == Offset(base, d) + Count(Bump(got, c), d)
    {
      assert HighestSequence(Pieces(f), d) == Offset(base, d) + Count(got, d);
    }
  }

  lemma HoldsOneMore(f: FileDir, f': FileDir, got: map<string, nat>, base: Piece, recent: map<string, seq<string>>, c: string, last: Piece)
    requires Numbered(f) && Numbered(f') && HoldsExactly(f, got, base, recent)
    requires Count(got, c) < |Of(recent, c)|
    requires last == Piece(c, Offset(base, c) + Count(got, c) + 1, Of(recent, c)[Count(got, c)])
    requires Pieces(f') == Pieces(f) + [last]
    ensures HoldsExactly(f', Bump(got, c), base, recent)
  {
    forall p: Piece
      ensures p in Pieces(f') <==> IsRecent(base, recent, p, Count(Bump(got, c), p.client))
    {
      assert p in Pieces(f) <==> IsRecent(base, recent, p, Count(got, p.client));
      if p.client == c { RecentGains(base, recent, c, Count(got, c), p); }
    }
  }

  /** One replica receiving the client's next append keeps all replicas right. */
  lemma ReceiveKeepsReplicas(w: World, c: string, r: nat)
    requires r < |w.dirs| == |w.reached| && ReplicasRight(w) && AllNumbered(w.dirs)
    requires Count(w.reached[r], c) < |Of(w.recent, c)|
    ensures var w' := Receive(w, c, r, Of(w.recent, c)[Count(w.reached[r], c)]);
      ReplicasRight(w') && AllNumbered(w'.dirs)
  {
    ReceiverStaysRight(w.dirs[r], w.reached[r], w.base, w.recent, c);
    var w' := Receive(w, c, r, Of(w.recent, c)[Count(w.reached[r], c)]);
    forall i | 0 <= i < |w'.dirs|
      ensures ReplicaRight(w'.dirs[i], w'.reached[i], w'.base, w'.recent) && Numbered(w'.dirs[i])
    {
      assert ReplicaRight(w.dirs[i], w.reached[i], w.base, w.recent);
    }
  }

  /** The client has issued one more append, which no replica has yet. */
  function Issued(w: World, c: string, content: string): World {
    w.(recent := w.recent[c := Of(w.recent, c) + [content]], issued := w.issued[c := Of(w.issued, c) + [content]])
  }

  lemma IssueKeepsReplicas(w: World, c: string, content: string)
    requires |w.dirs| == |w.reached| && ReplicasRight(w)
    ensures ReplicasRight(Issued(w, c, content))
  {
    var w' := Issued(w, c, content);
    assert Grows(w.recent, w'.recent);
    forall i | 0 <= i < |w.dirs|
      ensures ReplicaRight(w.dirs[i], w.reached[i], w.base, w'.recent)
    {
      OthersStayRight(w.dirs[i], w.reached[i], w.base, w.recent, w'.recent);
    }
  }

  lemma IssueKeepsHistory(w: World, c: string, content: string)
    requires HistoryRight(w)
    ensures HistoryRight(Issued(w, c, content))
  {
    var w' := Issued(w, c, content);
    forall d
      ensures Project(w'.parts, d) + Of(w'.recent, d) == Of(w'.issued, d)
    {
      assert Project(w.parts, d) + Of(w.recent, d) == Of(w.issued, d);
    }
  }

  lemma AppendLosesNothing(w: World, c: string, content: string, r: nat)
    requires |w.dirs| == |w.reached| && r < |w.dirs| && NothingLost(w)
    requires Count(w.reached[r], c) == |Of(w.recent, c)|
    ensures NothingLost(Receive(Issued(w, c, content), c, r, content))
  {
    var w' := Receive(Issued(w, c, content), c, r, content);
    forall d
      ensures SomeoneHasAll(w', d)
    {
      assert SomeoneHasAll(w, d);
      var i :| 0 <= i < |w.reached| && HasAll(w, i, d);
      assert HasAll(w', if d == c then r else i, d);
    }
  }

  lemma CatchUpLosesNothing(w: World, c: string, r: nat, content: string)
    requires |w.dirs| == |w.reached| && r < |w.dirs| && NothingLost(w)
    requires Count(w.reached[r], c) < |Of(w.recent, c)|
    ensures NothingLost(Receive(w, c, r, content))
  {
    var w' := Receive(w, c, r, content);
    forall d
      ensures SomeoneHasAll(w', d)
    {
      assert SomeoneHasAll(w, d);
      var i :| 0 <= i < |w.reached| && HasAll(w, i, d);
      assert HasAll(w', i, d);
    }
  }

  lemma AppendKeepsInv(w: World, step: Step)
    requires Inv(w) && Enabled(w, step) && step.Append? && !Less(step.client, MERGED_CLIENT)
    ensures Inv(Apply(w, step))
  {
    var Append(c, content, r) := step;
    IssueKeepsReplicas(w, c, content);
    IssueKeepsHistory(w, c, content);
    ReceiveKeepsReplicas(Issued(w, c, content), c, r);
    AppendLosesNothing(w, c, content, r);
    assert Apply(w, step) == Receive(Issued(w, c, content), c, r, content);
  }

  lemma CatchUpKeepsInv(w: World, step: Step)
    requires Inv(w) && Enabled(w, step) && step.CatchUp?
    ensures Inv(Apply(w, step))
  {
    var CatchUp(c, r) := step;
    ReceiveKeepsReplicas(w, c, r);
    CatchUpLosesNothing(w, c, r, Of(w.recent, c)[Count(w.reached[r], c)]);
  }

  // ---------- what a merge makes of the recent appends ----------

  function RecentPieces(w: World, c: string): (s: seq<Piece>)
    ensures |s| == |Of(w.recent, c)|
    ensures forall j :: 0 <= j < |s| ==> s[j] == Piece(c, Offset(w.base, c) + j + 1, Of(w.recent, c)[j])
  {
    seq(|Of(w.recent, c)|, j requires 0 <= j < |Of(w.recent, c)| => Piece(c, Offset(w.base, c) + j + 1, Of(w.recent, c)[j]))
  }

  function BasePieces(w: World, c: string): seq<Piece> {
    if w.base.client == c then [w.base] else []
  }

  lemma UnionMembers(w: World, p: Piece)
    requires |w.dirs| == |w.reached| && AllNumbered(w.dirs) && ReplicasRight(w) && NothingLost(w)
    ensures p in UnionOf(w.dirs) <==> IsRecent(w.base, w.recent, p, |Of(w.recent, p.client)|)
  {
    if p in UnionOf(w.dirs) {
      var i :| 0 <= i < |w.dirs| && p in Pieces(w.dirs[i]);
      HeldIsRecent(w.dirs[i], w.reached[i], w.base, w.recent, p);
    }
    if IsRecent(w.base, w.recent, p, |Of(w.recent, p.client)|) {
      assert SomeoneHasAll(w, p.client);
      var r :| 0 <= r < |w.reached| && HasAll(w, r, p.client);
      HeldIsRecent(w.dirs[r], w.reached[r], w.base, w.recent, p);
      assert p in Pieces(w.dirs[r]);
    }
  }

  lemma RecentIsUnique(base: Piece, recent: map<string, seq<string>>, p: Piece, q: Piece, n: nat)
    requires base.sequence == 1 && p.client == q.client && p.sequence == q.sequence
    requires IsRecent(base, recent, p, n) && IsRecent(base, recent, q, n)
    ensures p == q
  {}

  /** The replicas agree on every piece, so that a merge has one result. */
  lemma UnionAgrees(w: World)
    requires Inv(w)
    ensures Agree(UnionOf(w.dirs))
  {
    forall p, q | p in UnionOf(w.dirs) && q in UnionOf(w.dirs) && p.client == q.client && p.sequence == q.sequence
      ensures p == q
    {
      UnionMembers(w, p);
      UnionMembers(w, q);
      RecentIsUnique(w.base, w.recent, p, q, |Of(w.recent, p.client)|);
    }
  }

  lemma HeldIsRecent(f: FileDir, got: map<string, nat>, base: Piece, recent: map<string, seq<string>>, p: Piece)
    requires ReplicaRight(f, got, base, recent)
    ensures p in Pieces(f) ==> IsRecent(base, recent, p, |Of(recent, p.client)|)
    ensures Count(got, p.client) == |Of(recent, p.client)| && IsRecent(base, recent, p, |Of(recent, p.client)|) ==> p in Pieces(f)
  {
    assert p in Pieces(f) <==> IsRecent(base, recent, p, Count(got, p.client));
    assert Count(got, p.client) <= |Of(recent, p.client)|;
  }

  lemma ShareIsSorted(w: World, c: string)
    requires w.base.sequence == 1
    ensures StrictlySorted(BasePieces(w, c) + RecentPieces(w, c))
    ensures forall p :: p in BasePieces(w, c) + RecentPieces(w, c)
                   <==> p.client == c && IsRecent(w.base, w.recent, p, |Of(w.recent, c)|)
  {
    var f := BasePieces(w, c) + RecentPieces(w, c);
    assert forall i :: 0 <= i < |f| ==> f[i].client == c && f[i].sequence == i + 1;
    forall p: Piece | p.client == c && p != w.base && IsRecent(w.base, w.recent, p, |Of(w.recent, c)|)
      ensures p in f
    {
      assert RecentPieces(w, c)[p.sequence - Offset(w.base, c) - 1] == p;
    }
    if w.base.client == c { assert f[0] == w.base; }
  }

  /** In the merge order a client's blocks are the base block, if it is its own, and its recent
      appends in issue order. */
  lemma ClientShare(w: World, s: seq<Piece>, c: string)
    requires Inv(w) && StrictlySorted(s) && Elements(s) == UnionOf(w.dirs)
    ensures OfClient(s, c) == BasePieces(w, c) + RecentPieces(w, c)
  {
    var f := BasePieces(w, c) + RecentPieces(w, c);
    OfClientSorted(s, c);
    OfClientMembers(s, c);
    ShareIsSorted(w, c);
    forall p: Piece
      ensures p in OfClient(s, c) <==> p in f
    {
      assert p in s <==> p in Elements(s);
      UnionMembers(w, p);
    }
    assert Elements(OfClient(s, c)) == Elements(f);
    SortedIsUnique(OfClient(s, c), f);
  }

  /** What comes before the base block in the merge order belongs to clients below its own. */
  lemma BeforeBase(w: World, p: Piece)
    requires Inv(w) && p in UnionOf(w.dirs) && Before(p, w.base)
    ensures Less(p.client, w.base.client) && w.base.client != MERGED_CLIENT
  {
    BeforeAsymmetric(p, w.base);
    UnionMembers(w, p);
    assert p.client in w.recent;
  }

  lemma NonemptyHasMember<T>(s: seq<T>)
    ensures s != [] ==> exists x :: x in s
  {
    if s != [] { assert s[0] in s; }
  }

  lemma NothingBeforeBase(w: World, s: seq<Piece>, k: nat, c: string)
    requires Inv(w) && StrictlySorted(s) && Elements(s) == UnionOf(w.dirs)
    requires k < |s| && s[k] == w.base
    requires Project(w.parts, c) != [] || c == w.base.client
    ensures OfClient(s[..k], c) == []
  {
    OfClientMembers(s[..k], c);
    LessIrreflexive(c);
    forall p | p in s[..k]
      ensures p.client != c
    {
      var i :| 0 <= i < k && s[i] == p;
      assert p in Elements(s);
      BeforeBase(w, p);
    }
    NonemptyHasMember(OfClient(s[..k], c));
  }

  /** A merge keeps every client's appends, each once, in issue order. */
  lemma MergeOrders(w: World, s: seq<Piece>, c: string)
    requires Inv(w) && StrictlySorted(s) && Elements(s) == UnionOf(w.dirs)
    ensures Project(Expand(s, w.base, w.parts), c) == Of(w.issued, c)
  {
    UnionMembers(w, w.base);
    assert w.base in Elements(s);
    var k :| 0 <= k < |s| && s[k] == w.base;
    ProjectExpand(s, w.base, w.parts, c, k);
    SplitOfClient(s, c, k);
    ClientShare(w, s, c);
    assert Project(w.parts, c) + Of(w.recent, c) == Of(w.issued, c);
    if Project(w.parts, c) != [] || c == w.base.client { NothingBeforeBase(w, s, k, c); }
    ShareContents(w, OfClient(s[..k], c), OfClient(s[k + 1..], c), c);
  }

  lemma ShareContents(w: World, front: seq<Piece>, back: seq<Piece>, c: string)
    requires front + (BasePieces(w, c) + back) == BasePieces(w, c) + RecentPieces(w, c)
    requires Project(w.parts, c) != [] || c == w.base.client ==> front == []
    ensures ContentsOf(front) + (Project(w.parts, c) + ContentsOf(back)) == Project(w.parts, c) + Of(w.recent, c)
  {
    if front == [] {
      assert (BasePieces(w, c) + back)[|BasePieces(w, c)|..] == back;
      assert (BasePieces(w, c) + RecentPieces(w, c))[|BasePieces(w, c)|..] == RecentPieces(w, c);
      assert ContentsOf(back) == Of(w.recent, c);
    } else {
      assert BasePieces(w, c) == [];
      assert [] + back == back && [] + RecentPieces(w, c) == RecentPieces(w, c);
      assert front + back == RecentPieces(w, c);
      assert ContentsOf(front) + ContentsOf(back) == ContentsOf(front + back);
      assert ContentsOf(front + back) == Of(w.recent, c);
    }
  }

  /** What the merge has put into the base block is what was issued. */
  lemma MergeKeepsHistory(w: World, step: Step)
    requires Inv(w) && Enabled(w, step) && step.Merge?
    ensures var w' := Apply(w, step);
      && step.content == ConcatLabels(w'.parts)
      && forall c :: Project(w'.parts, c) + Of(w'.recent, c) == Of(w'.issued, c)
  {
    var w' := Apply(w, step);
    var s := SortedUnion(w);
    ExpandKeepsBytes(s, w.base, w.parts);
    MergeIsUnique(step.content, Concat(s), UnionOf(w.dirs));
    forall c ensures Project(w'.parts, c) + Of(w'.recent, c) == Of(w'.issued, c) {
      MergeOrders(w, s, c);
    }
  }

  /** Replicas that all hold just the base block are right. */
  lemma OnlyBaseEverywhere(w: World, f: FileDir)
    requires |w.dirs| == |w.reached| > 0 && w.recent == map[] && w.base.sequence == 1
    requires Consistent(f) && Pieces(f) == [w.base]
    requires forall r :: 0 <= r < |w.dirs| ==> w.dirs[r] == f && w.reached[r] == map[]
    ensures AllNumbered(w.dirs) && ReplicasRight(w) && NothingLost(w)
  {
    OnlyBaseIsRight(f, w.base);
    OnlyBaseLosesNothing(w);
  }

  lemma MergeKeepsReplicas(w: World, step: Step)
    requires Inv(w) && Enabled(w, step) && step.Merge?
    ensures var w' := Apply(w, step);
      |w'.dirs| == |w'.reached| == |w.dirs| && AllNumbered(w'.dirs) && ReplicasRight(w') && NothingLost(w')
  {
    CreatedPieces(w.name, step.content, w.fileID, w.primary, MERGED_CLIENT);
    OnlyBaseEverywhere(Apply(w, step), Created(w.name, step.content, w.fileID, w.primary, MERGED_CLIENT));
  }

  lemma MergeKeepsInv(w: World, step: Step)
    requires Inv(w) && Enabled(w, step) && step.Merge?
    ensures Inv(Apply(w, step))
  {
    MergeKeepsHistory(w, step);
    MergeKeepsReplicas(w, step);
  }

  /** Every client of the run comes at or after "merged_content". */
  ghost predicate ClientsInOrder(steps: seq<Step>) {
    forall i :: 0 <= i < |steps| && steps[i].Append? ==> !Less(steps[i].client, MERGED_CLIENT)
  }

  lemma {:induction false} RunsKeepInv(from: World, steps: seq<Step>)
    requires Inv(from) && ClientsInOrder(steps)
    ensures Exec(from, steps).Some? ==> Inv(Exec(from, steps).value)
  {
    if steps == [] {
    } else {
      var init := steps[..|steps| - 1];
      var last := steps[|steps| - 1];
      RunsKeepInv(from, init);
      if Exec(from, init).Some? && Enabled(Exec(from, init).value, last) {
        var w := Exec(from, init).value;
        match last
        case Append(_, _, _) => AppendKeepsInv(w, last);
        case CatchUp(_, _) => CatchUpKeepsInv(w, last);
        case Merge(_) => MergeKeepsInv(w, last);
      }
    }
  }

  // ---------- main results ----------

  /** What every replica reads after a run that ends with a merge: all replicas the same bytes,
      and these are every client's appends, each exactly once, in the order it issued them. */
  lemma MergedFilesKeepIssueOrder(n: nat, name: string, fileID: nat, primary: nat, creator: string, content: string,
                                  steps: seq<Step>, merged: string)
    requires n > 0 && ClientsInOrder(steps)
    requires Exec(Start(n, name, fileID, primary, creator, content), steps + [Merge(merged)]).Some?
    ensures var w := Exec(Start(n, name, fileID, primary, creator, content), steps + [Merge(merged)]).value;
      && |w.dirs| == n
      && (forall r :: 0 <= r < n ==> Numbered(w.dirs[r]) && Contents(w.dirs[r]) == merged)
      && InIssueOrder(merged, w.issued)
  {
    var from := Start(n, name, fileID, primary, creator, content);
    var all := steps + [Merge(merged)];
    assert all[..|all| - 1] == steps;
    StartInv(n, name, fileID, primary, creator, content);
    RunsKeepInv(from, steps);
    var w := Exec(from, steps).value;
    MergeKeepsInv(w, Merge(merged));
    var w' := Exec(from, all).value;
    assert w' == Apply(w, Merge(merged));
    CreatedPieces(w.name, merged, w.fileID, w.primary, MERGED_CLIENT);
    SameReplicaCount(from, steps);
    assert ConcatLabels(w'.parts) == merged;
    forall c
      ensures Project(w'.parts, c) == Of(w'.issued, c)
    {
      assert Project(w'.parts, c) + Of(w'.recent, c) == Of(w'.issued, c);
    }
  }

  lemma {:induction false} SameReplicaCount(from: World, steps: seq<Step>)
    requires Exec(from, steps).Some?
    ensures |Exec(from, steps).value.dirs| == |from.dirs|
  {
    if steps == [] {
    } else {
      SameReplicaCount(from, steps[..|steps| - 1]);
    }
  }

  // ---------- the merge of the stores is the merge of the runs ----------

  /** `HandleMerge` on stores that hold the file as in a reachable world takes the step `Merge`: it
      comes out with the bytes that step allows and leaves every replica as that step does. */
  method MergeReplicas(stores: seq<BlockStore>, order: seq<nat>, w: World) returns (content: string)
    requires Merging.Replicas(stores) && Arrivals(order, |stores|)
    requires Inv(w) && DirsAre(stores, w.name, w.dirs)
    modifies set s | s in stores
    ensures Merging.Replicas(stores)
    ensures Enabled(w, Merge(content))
    ensures DirsAre(stores, w.name, Apply(w, Merge(content)).dirs)
  {
    UnionAgrees(w);
    UnionIsUnionOf(stores, w.name, w.dirs);
    var ok;
    ok, content := HandleMerge(stores, order, w.name, w.fileID, w.primary);
  }

  // ---------- exactly which client names are safe ----------

  ghost predicate RunOf(clients: set<string>, creator: string, steps: seq<Step>) {
    creator in clients && forall i :: 0 <= i < |steps| && steps[i].Append? ==> steps[i].client in clients
  }

  ghost predicate RunInOrder(from: World, steps: seq<Step>, merged: string) {
    Exec(from, steps + [Merge(merged)]).Some? ==> InIssueOrder(merged, Exec(from, steps + [Merge(merged)]).value.issued)
  }

  /** Every run of these clients leaves, after a merge, every client's appends in issue order. */
  ghost predicate AlwaysInIssueOrder(clients: set<string>) {
    forall n: nat, name, fileID, primary, creator, content, steps, merged
      {:trigger RunOf(clients, creator, steps), RunInOrder(Start(n, name, fileID, primary, creator, content), steps, merged)} ::
      n > 0 && RunOf(clients, creator, steps) ==> RunInOrder(Start(n, name, fileID, primary, creator, content), steps, merged)
  }

  /** The run that goes wrong for a client `c` below "merged_content": it creates the file with
      "1", a merge follows, it appends "2", a merge follows. */
  function WrongRun(c: string): seq<Step> {
    [Merge("1"), Append(c, "2", 0)]
  }

  lemma OneBlockMerges(p: Piece)
    ensures IsMergeOf(p.content, {p})
  {
    assert StrictlySorted([p]) && Elements([p]) == {p};
    assert [p][..0] == [];
    assert Concat([p]) == Concat([p][..0]) + p.content;
  }

  lemma TwoBlocksMerge(p: Piece, q: Piece)
    requires Before(p, q)
    ensures IsMergeOf(p.content + q.content, {p, q})
  {
    var s := [p, q];
    assert StrictlySorted(s) && Elements(s) == {p, q};
    assert s[..1] == [p] && [p][..0] == [];
    assert Concat([p]) == Concat([p][..0]) + p.content;
    assert Concat(s) == Concat(s[..1]) + q.content;
  }

  lemma WrongRunFirstMerge(c: string)
    ensures var w := Start(1, "f", 0, 0, c, "1");
      && Exec(w, [Merge("1")]).Some?
      && Exec(w, [Merge("1")]).value.dirs == [Created("f", "1", 0, 0, MERGED_CLIENT)]
      && Exec(w, [Merge("1")]).value.reached == [map[]]
      && Exec(w, [Merge("1")]).value.recent == map[]
      && Exec(w, [Merge("1")]).value.issued == map[c := ["1"]]
  {
    var w := Start(1, "f", 0, 0, c, "1");
    CreatedPieces("f", "1", 0, 0, c);
    OneBlockMerges(Piece(c, 1, "1"));
    assert w.dirs == [Created("f", "1", 0, 0, c)];
    assert UnionOf(w.dirs) == {Piece(c, 1, "1")} by {
      assert Piece(c, 1, "1") in Pieces(w.dirs[0]);
    }
    assert [Merge("1")][..0] == [];
    assert Exec(w, [Merge("1")][..0]) == Some(w);
    assert Enabled(w, Merge("1"));
  }

  lemma AppendToFresh(w: World, c: string)
    requires w.dirs == [Created("f", "1", 0, 0, MERGED_CLIENT)] && w.reached == [map[]]
    requires w.recent == map[] && w.issued == map[c := ["1"]]
    ensures Enabled(w, Append(c, "2", 0))
    ensures var w' := Apply(w, Append(c, "2", 0));
      && w'.dirs == [Appended(Created("f", "1", 0, 0, MERGED_CLIENT), "2", c)]
      && |w'.reached| == 1 && w'.issued == map[c := ["1", "2"]]
  {
    CreatedPieces("f", "1", 0, 0, MERGED_CLIENT);
    assert Of(w.issued, c) + ["2"] == ["1", "2"];
  }

  lemma WrongRunAppend(c: string)
    requires Less(c, MERGED_CLIENT)
    ensures var e := Exec(Start(1, "f", 0, 0, c, "1"), WrongRun(c));
      && e.Some?
      && e.value.dirs == [Appended(Created("f", "1", 0, 0, MERGED_CLIENT), "2", c)]
      && |e.value.reached| == 1
      && e.value.issued == map[c := ["1", "2"]]
  {
    WrongRunFirstMerge(c);
    AppendToFresh(Exec(Start(1, "f", 0, 0, c, "1"), [Merge("1")]).value, c);
    assert WrongRun(c)[..|WrongRun(c)| - 1] == [Merge("1")];
  }

  lemma WrongRunUnion(c: string, f: FileDir)
    requires Less(c, MERGED_CLIENT) && f == Appended(Created("f", "1", 0, 0, MERGED_CLIENT), "2", c)
    ensures AllNumbered([f]) && UnionOf([f]) == {Piece(c, 1, "2"), Piece(MERGED_CLIENT, 1, "1")}
  {
    var base := Piece(MERGED_CLIENT, 1, "1");
    LessIrreflexive(c);
    CreatedPieces("f", "1", 0, 0, MERGED_CLIENT);
    AppendedPieces(Created("f", "1", 0, 0, MERGED_CLIENT), "2", c);
    assert [base][..0] == [];
    assert HighestSequence([base], c) == HighestSequence([base][..0], c) == 0;
    var p := Pieces([f][0]);
    assert p == [base, Piece(c, 1, "2")];
    assert p[0] == base && p[1] == Piece(c, 1, "2");
    assert base in p && Piece(c, 1, "2") in p;
  }

  lemma WrongRunEnds(c: string)
    requires Less(c, MERGED_CLIENT)
    ensures var e := Exec(Start(1, "f", 0, 0, c, "1"), WrongRun(c) + [Merge("21")]);
      e.Some? && e.value.issued == map[c := ["1", "2"]]
  {
    WrongRunAppend(c);
    var w := Exec(Start(1, "f", 0, 0, c, "1"), WrongRun(c)).value;
    WrongRunUnion(c, w.dirs[0]);
    TwoBlocksMerge(Piece(c, 1, "2"), Piece(MERGED_CLIENT, 1, "1"));
    assert "2" + "1" == "21";
    var steps := WrongRun(c) + [Merge("21")];
    assert steps[..|steps| - 1] == WrongRun(c);
    assert Enabled(w, Merge("21"));
  }

  lemma {:induction false} OnlyOneClient(labels: seq<Label>, c: string)
    requires forall d :: d != c ==> Project(labels, d) == []
    ensures |Project(labels, c)| == |labels|
    ensures forall i :: 0 <= i < |labels| ==> labels[i].content == Project(labels, c)[i]
  {
    if labels == [] {
    } else {
      var init := labels[..|labels| - 1];
      var l := labels[|labels| - 1];
      forall d | d != c
        ensures Project(init, d) == []
      {
        assert Project(labels, d) == Project(init, d) + if l.client == d then [l.content] else [];
      }
      assert Project(labels, l.client) == Project(init, l.client) + [l.content];
      OnlyOneClient(init, c);
    }
  }

  lemma TwentyOneIsOutOfOrder(c: string)
    ensures !InIssueOrder("21", map[c := ["1", "2"]])
  {
    var issued := map[c := ["1", "2"]];
    forall labels | forall d :: Project(labels, d) == Of(issued, d)
      ensures ConcatLabels(labels) != "21"
    {
      OnlyOneClient(labels, c);
      assert Project(labels, c) == ["1", "2"];
      var one := labels[..1];
      assert one[..0] == [];
      assert ConcatLabels(one) == ConcatLabels(one[..0]) + "1";
      assert ConcatLabels(labels) == ConcatLabels(one) + "2";
      assert ConcatLabels(labels)[0] == '1';
    }
  }

  /** Issue order survives every run of a set of clients if and only if none of them comes
      before "merged_content" in the string order. */
  lemma IssueOrderIffClientsAtOrAfterMerged(clients: set<string>)
    ensures AlwaysInIssueOrder(clients) <==> forall c :: c in clients ==> !Less(c, MERGED_CLIENT)
  {
    if forall c :: c in clients ==> !Less(c, MERGED_CLIENT) {
      forall n: nat, name, fileID, primary, creator, content, steps, merged
        | n > 0 && RunOf(clients, creator, steps)
        ensures RunInOrder(Start(n, name, fileID, primary, creator, content), steps, merged)
      {
        if Exec(Start(n, name, fileID, primary, creator, content), steps + [Merge(merged)]).Some? {
          MergedFilesKeepIssueOrder(n, name, fileID, primary, creator, content, steps, merged);
        }
      }
    } else {
      var c :| c in clients && Less(c, MERGED_CLIENT);
      WrongRunEnds(c);
      TwentyOneIsOutOfOrder(c);
      assert RunOf(clients, c, WrongRun(c));
      assert !RunInOrder(Start(1, "f", 0, 0, c, "1"), WrongRun(c), "21");
    }
  }
}
