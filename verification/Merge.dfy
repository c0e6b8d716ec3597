/** The merge of the replicas of a file: collect, deduplicate, sort, redistribute. */
module Merging {
  import opened FileNames
  import opened Maybe
  import opened Text
  import opened BlockStorage

  const MERGED_CLIENT: string := "merged_content"

  // ---------- the deduplication key ----------

  /** `%s:%d` of client and sequence. */
  function Key(client: string, sequence: nat): string {
    client + ":" + Decimal(sequence)
  }

  /** The key identifies its block even when client ids contain colons. */
  lemma KeyInjective(c1: string, s1: nat, c2: string, s2: nat)
    requires Key(c1, s1) == Key(c2, s2)
    ensures c1 == c2 && s1 == s2
  {
    LastSeparatorIsUnique(c1, Decimal(s1), c2, Decimal(s2), ':');
    DecimalInjective(s1, s2);
  }

  function KeyOf(b: BlockInfo): string {
    Key(b.client, b.sequence)
  }

  // ---------- the reference: pieces in (client, sequence) order ----------

  predicate Before(p: Piece, q: Piece) {
    Less(p.client, q.client) || (p.client == q.client && p.sequence < q.sequence)
  }

  ghost predicate StrictlySorted(s: seq<Piece>) {
    forall i, j :: 0 <= i < j < |s| ==> Before(s[i], s[j])
  }

  ghost function Elements(s: seq<Piece>): set<Piece> {
    set p | p in s
  }

  /** Replicas agree on what a client appended under a number. */
  ghost predicate Agree(u: set<Piece>) {
    forall p, q :: p in u && q in u && p.client == q.client && p.sequence == q.sequence ==> p == q
  }

  /** `content` is the pieces of `u` in (client, sequence) order, each once. */
  ghost predicate IsMergeOf(content: string, u: set<Piece>) {
    exists s :: StrictlySorted(s) && Elements(s) == u && content == Concat(s)
  }

  lemma BeforeAsymmetric(p: Piece, q: Piece)
    requires Before(p, q)
    ensures !Before(q, p) && p != q
  {
    if Less(p.client, q.client) { LessAsymmetric(p.client, q.client); }
    LessIrreflexive(p.client);
  }

  lemma SameFirst(s: seq<Piece>, t: seq<Piece>)
    requires StrictlySorted(s) && StrictlySorted(t) && Elements(s) == Elements(t) && s != []
    ensures t != [] && s[0] == t[0]
  {
    assert s[0] in Elements(t);
    var j :| 0 <= j < |t| && t[j] == s[0];
    assert t[0] in Elements(s);
    var i :| 0 <= i < |s| && s[i] == t[0];
    if j > 0 && i > 0 { BeforeAsymmetric(s[0], s[i]); }
  }

  lemma TailElements(s: seq<Piece>)
    requires StrictlySorted(s) && s != []
    ensures StrictlySorted(s[1..]) && Elements(s[1..]) == Elements(s) - {s[0]}
  {
    forall i | 1 <= i < |s|
      ensures s[i] != s[0]
    {
      BeforeAsymmetric(s[0], s[i]);
    }
    forall p | p in Elements(s) - {s[0]}
      ensures p in s[1..]
    {
      var i :| 0 <= i < |s| && s[i] == p;
      assert s[1..][i - 1] == p;
    }
  }

  lemma BothEmpty(s: seq<Piece>, t: seq<Piece>)
    requires Elements(s) == Elements(t)
    ensures s == [] <==> t == []
  {
    if s != [] { assert s[0] in Elements(s); }
    if t != [] { assert t[0] in Elements(t); }
  }

  lemma {:induction false} SortedIsUnique(s: seq<Piece>, t: seq<Piece>)
    requires StrictlySorted(s) && StrictlySorted(t) && Elements(s) == Elements(t)
    ensures s == t
  {
    BothEmpty(s, t);
    if s == [] {
    } else {
      SameFirst(s, t);
      TailElements(s);
      TailElements(t);
      SortedIsUnique(s[1..], t[1..]);
      assert s == [s[0]] + s[1..] && t == [t[0]] + t[1..];
    }
  }

  /** Whatever the order of replicas, replies and map iteration, a merge has one possible result. */
  lemma MergeIsUnique(c1: string, c2: string, u: set<Piece>)
    requires IsMergeOf(c1, u) && IsMergeOf(c2, u)
    ensures c1 == c2
  {
    var s :| StrictlySorted(s) && Elements(s) == u && c1 == Concat(s);
    var t :| StrictlySorted(t) && Elements(t) == u && c2 == Concat(t);
    SortedIsUnique(s, t);
  }

  // ---------- collecting ----------

  /** Adding blocks to the collection one by one: the latest block with a key stays. */
  function Collected(blocks: seq<BlockInfo>): map<string, BlockInfo> {
    if blocks == [] then map[]
    else Collected(blocks[..|blocks| - 1])[KeyOf(blocks[|blocks| - 1]) := blocks[|blocks| - 1]]
  }

  function Flatten(replies: seq<seq<BlockInfo>>): seq<BlockInfo> {
    if replies == [] then [] else Flatten(replies[..|replies| - 1]) + replies[|replies| - 1]
  }

  lemma CollectedNext(flat: seq<BlockInfo>, reply: seq<BlockInfo>, i: nat)
    requires i < |reply|
    ensures Collected(flat + reply[..i + 1]) == Collected(flat + reply[..i])[KeyOf(reply[i]) := reply[i]]
  {
    assert (flat + reply[..i + 1])[..|flat| + i] == flat + reply[..i];
  }

  /** The collection loop over the replies, in the order they arrive. */
  method CollectBlocks(replies: seq<seq<BlockInfo>>) returns (all: map<string, BlockInfo>)
    ensures all == Collected(Flatten(replies))
  {
    all := map[];
    for r := 0 to |replies|
      invariant all == Collected(Flatten(replies[..r]))
    {
      ghost var flat := Flatten(replies[..r]);
      assert replies[..r + 1][..r] == replies[..r];
      assert flat + replies[r][..0] == flat;
      for i := 0 to |replies[r]|
        invariant all == Collected(flat + replies[r][..i])
      {
        var block := replies[r][i];
        CollectedNext(flat, replies[r], i);
        all := all[KeyOf(block) := block];
      }
      assert replies[r][..|replies[r]|] == replies[r];
    }
    assert replies[..|replies|] == replies;
  }

  ghost function PieceSet(blocks: seq<BlockInfo>): set<Piece> {
    set b | b in blocks :: PieceOf(b)
  }

  lemma {:induction false} CollectedKeys(blocks: seq<BlockInfo>)
    ensures forall k :: k in Collected(blocks) ==> KeyOf(Collected(blocks)[k]) == k && Collected(blocks)[k] in blocks
    ensures forall b :: b in blocks ==> KeyOf(b) in Collected(blocks)
  {
    if blocks == [] {
    } else {
      var init := blocks[..|blocks| - 1];
      CollectedKeys(init);
      assert forall b :: b in blocks <==> b in init || b == blocks[|blocks| - 1];
    }
  }

  /** The blocks of the collection, in some map iteration order. */
  method MapToSlice(all: map<string, BlockInfo>) returns (slice: seq<BlockInfo>)
    requires forall k :: k in all ==> KeyOf(all[k]) == k
    ensures forall b :: b in slice <==> KeyOf(b) in all && all[KeyOf(b)] == b
    ensures forall i, j :: 0 <= i < j < |slice| ==> KeyOf(slice[i]) != KeyOf(slice[j])
  {
    slice := [];
    var todo := all.Keys;
    while todo != {}
      invariant todo <= all.Keys
      invariant forall b :: b in slice <==> KeyOf(b) in all && KeyOf(b) !in todo && all[KeyOf(b)] == b
      invariant forall i, j :: 0 <= i < j < |slice| ==> KeyOf(slice[i]) != KeyOf(slice[j])
      decreases todo
    {
      var k :| k in todo;
      todo := todo - {k};
      assert forall i :: 0 <= i < |slice| ==> slice[i] in slice;
      slice := slice + [all[k]];
    }
  }

  // ---------- what the merge sort makes of the collection ----------

  lemma {:induction false} DistinctCounts(s: seq<BlockInfo>)
    requires forall i, j :: 0 <= i < j < |s| ==> s[i] != s[j]
    ensures forall b :: multiset(s)[b] <= 1
  {
    if s == [] {
    } else {
      var init := s[..|s| - 1];
      DistinctCounts(init);
      assert s == init + [s[|s| - 1]];
      assert s[|s| - 1] !in init;
    }
  }

  lemma CountsDistinct(t: seq<BlockInfo>, i: nat, j: nat)
    requires forall b :: multiset(t)[b] <= 1
    requires i < j < |t|
    ensures t[i] != t[j]
  {
    var x := t[j];
    assert t == t[..j] + [x] + t[j + 1..];
    assert multiset(t)[x] == multiset(t[..j])[x] + 1 + multiset(t[j + 1..])[x];
    assert x !in t[..j];
    assert t[..j][i] == t[i];
  }

  lemma SameElements(s: seq<BlockInfo>, t: seq<BlockInfo>)
    requires multiset(s) == multiset(t)
    ensures forall b :: b in s <==> b in t
  {
    forall b
      ensures b in s <==> b in t
    {
      assert b in s <==> b in multiset(s);
      assert b in t <==> b in multiset(t);
    }
  }

  /** Sorting blocks with distinct keys makes their pieces strictly sorted. */
  lemma SortedSliceIsStrict(slice: seq<BlockInfo>, sorted: seq<BlockInfo>)
    requires forall i, j :: 0 <= i < j < |slice| ==> KeyOf(slice[i]) != KeyOf(slice[j])
    requires InMergeOrder(sorted) && multiset(sorted) == multiset(slice)
    ensures StrictlySorted(PiecesOf(sorted))
    ensures Elements(PiecesOf(sorted)) == PieceSet(slice)
  {
    SameElements(sorted, slice);
    DistinctCounts(slice);
    forall i, j | 0 <= i < j < |sorted|
      ensures Before(PieceOf(sorted[i]), PieceOf(sorted[j]))
    {
      CountsDistinct(sorted, i, j);
      assert sorted[i] in slice && sorted[j] in slice;
      KeysOfDifferent(slice, sorted[i], sorted[j]);
      NotAfterIsBefore(sorted[i], sorted[j]);
    }
    SamePieces(slice, sorted);
  }

  lemma KeysOfDifferent(slice: seq<BlockInfo>, a: BlockInfo, b: BlockInfo)
    requires forall i, j :: 0 <= i < j < |slice| ==> KeyOf(slice[i]) != KeyOf(slice[j])
    requires a in slice && b in slice && a != b
    ensures KeyOf(a) != KeyOf(b)
  {
    var i :| 0 <= i < |slice| && slice[i] == a;
    var j :| 0 <= j < |slice| && slice[j] == b;
    assert i < j || j < i;
  }

  lemma NotAfterIsBefore(a: BlockInfo, b: BlockInfo)
    requires !After(a, b) && KeyOf(a) != KeyOf(b)
    ensures Before(PieceOf(a), PieceOf(b))
  {
    LessTotal(a.client, b.client);
  }

  lemma SamePieces(slice: seq<BlockInfo>, sorted: seq<BlockInfo>)
    requires forall b :: b in sorted <==> b in slice
    ensures Elements(PiecesOf(sorted)) == PieceSet(slice)
  {
    forall p | p in PieceSet(slice)
      ensures p in PiecesOf(sorted)
    {
      var b :| b in slice && PieceOf(b) == p;
      assert b in sorted;
      var k :| 0 <= k < |sorted| && sorted[k] == b;
      assert PiecesOf(sorted)[k] == p;
    }
  }

  /** Deduplication by key loses nothing when the replicas agree. */
  lemma SliceIsUnion(blocks: seq<BlockInfo>, slice: seq<BlockInfo>)
    requires Agree(PieceSet(blocks))
    requires forall b :: b in slice <==> KeyOf(b) in Collected(blocks) && Collected(blocks)[KeyOf(b)] == b
    ensures PieceSet(slice) == PieceSet(blocks)
  {
    CollectedKeys(blocks);
    forall b | b in blocks
      ensures PieceOf(b) in PieceSet(slice)
    {
      var kept := Collected(blocks)[KeyOf(b)];
      assert kept in slice && kept in blocks;
      KeyInjective(b.client, b.sequence, kept.client, kept.sequence);
      assert PieceOf(kept) in PieceSet(blocks) && PieceOf(b) in PieceSet(blocks);
    }
  }

  lemma MergeOutcome(blocks: seq<BlockInfo>, slice: seq<BlockInfo>, sorted: seq<BlockInfo>)
    requires forall b :: b in slice <==> KeyOf(b) in Collected(blocks) && Collected(blocks)[KeyOf(b)] == b
    requires forall i, j :: 0 <= i < j < |slice| ==> KeyOf(slice[i]) != KeyOf(slice[j])
    requires InMergeOrder(sorted) && multiset(sorted) == multiset(slice)
    ensures Agree(PieceSet(blocks)) ==> IsMergeOf(Concat(PiecesOf(sorted)), PieceSet(blocks))
  {
    if Agree(PieceSet(blocks)) {
      SliceIsUnion(blocks, slice);
      SortedSliceIsStrict(slice, sorted);
    }
  }

  // ---------- the protocol on the replicas' stores ----------

  /** The blocks a replica answers with: none when it lacks the file. */
  ghost function Reply(store: BlockStore, name: string): seq<BlockInfo>
    reads store
  {
    if DirOf(name) in store.dirs && Numbered(store.dirs[DirOf(name)]) then Infos(store.dirs[DirOf(name)]) else []
  }

  /** The pieces in a replica's directory of the file. */
  ghost function Held(store: BlockStore, name: string): set<Piece>
    reads store
  {
    set p | DirOf(name) in store.dirs && Numbered(store.dirs[DirOf(name)]) && p in Pieces(store.dirs[DirOf(name)])
  }

  /** Everything the replicas hold of the file. */
  ghost function Union(stores: seq<BlockStore>, name: string): set<Piece>
    reads set s | s in stores
  {
    set i, p | 0 <= i < |stores| && p in Held(stores[i], name) :: p
  }

  /** What a replica answers is what it holds. */
  lemma ReplyIsHeld(store: BlockStore, name: string)
    ensures PieceSet(Reply(store, name)) == Held(store, name)
  {
    if DirOf(name) in store.dirs && Numbered(store.dirs[DirOf(name)]) {
      var f := store.dirs[DirOf(name)];
      InfosArePieces(f);
      forall p | p in Pieces(f) ensures p in PieceSet(Infos(f)) {
        var k :| 0 <= k < |Pieces(f)| && Pieces(f)[k] == p;
        assert Infos(f)[k] in Infos(f) && PieceOf(Infos(f)[k]) == PiecesOf(Infos(f))[k];
      }
      forall b | b in Infos(f) ensures PieceOf(b) in Pieces(f) {
        var k :| 0 <= k < |Infos(f)| && Infos(f)[k] == b;
        assert PiecesOf(Infos(f))[k] == PieceOf(b);
      }
    }
  }

  ghost predicate AllNumbered(dirs: seq<FileDir>) {
    forall i :: 0 <= i < |dirs| ==> Numbered(dirs[i])
  }

  /** The pieces in the replicas' directories. */
  ghost function UnionOf(dirs: seq<FileDir>): set<Piece>
    requires AllNumbered(dirs)
  {
    set i, p | 0 <= i < |dirs| && p in Pieces(dirs[i]) :: p
  }

  /** The replicas' directories of the file are these. */
  ghost predicate DirsAre(stores: seq<BlockStore>, name: string, dirs: seq<FileDir>)
    reads set s | s in stores
  {
    |dirs| == |stores| && forall i :: 0 <= i < |stores| ==> DirOf(name) in stores[i].dirs && stores[i].dirs[DirOf(name)] == dirs[i]
  }

  lemma UnionIsUnionOf(stores: seq<BlockStore>, name: string, dirs: seq<FileDir>)
    requires DirsAre(stores, name, dirs) && AllNumbered(dirs)
    ensures Union(stores, name) == UnionOf(dirs)
  {
    forall p | p in UnionOf(dirs) ensures p in Union(stores, name) {
      var i :| 0 <= i < |dirs| && p in Pieces(dirs[i]);
      assert p in Held(stores[i], name);
    }
  }

  ghost predicate Replicas(stores: seq<BlockStore>)
    reads set s | s in stores
  {
    && |stores| > 0
    && (forall i, j :: 0 <= i < j < |stores| ==> stores[i] != stores[j])
    && forall i :: 0 <= i < |stores| ==> stores[i].Valid()
  }

  /** `order` lists every replica: the order in which the replies arrive. */
  ghost predicate Arrivals(order: seq<nat>, n: nat) {
    && (forall k :: 0 <= k < |order| ==> order[k] < n)
    && forall i :: 0 <= i < n ==> i in order
  }

  lemma {:induction false} FlattenMembers(replies: seq<seq<BlockInfo>>, b: BlockInfo)
    ensures b in Flatten(replies) <==> exists k :: 0 <= k < |replies| && b in replies[k]
  {
    if replies == [] {
    } else {
      var init := replies[..|replies| - 1];
      FlattenMembers(init, b);
      if b in Flatten(init) {
        var k :| 0 <= k < |init| && b in init[k];
        assert b in replies[k];
      }
      if exists k :: 0 <= k < |replies| && b in replies[k] {
        var k :| 0 <= k < |replies| && b in replies[k];
        if k < |init| { assert b in init[k]; }
      }
    }
  }

  method GatherReplies(stores: seq<BlockStore>, order: seq<nat>, name: string) returns (replies: seq<seq<BlockInfo>>)
    requires Replicas(stores) && Arrivals(order, |stores|)
    ensures PieceSet(Flatten(replies)) == Union(stores, name)
  {
    replies := [];
    for k := 0 to |order|
      invariant |replies| == k
      invariant forall i :: 0 <= i < k ==> replies[i] == Reply(stores[order[i]], name)
    {
      var r := stores[order[k]].GetAllBlocks(name);
      replies := replies + [if r.Some? then r.value else []];
    }
    RepliesAreUnion(stores, order, name, replies);
  }

  lemma RepliesAreUnion(stores: seq<BlockStore>, order: seq<nat>, name: string, replies: seq<seq<BlockInfo>>)
    requires Arrivals(order, |stores|) && |replies| == |order|
    requires forall k :: 0 <= k < |order| ==> replies[k] == Reply(stores[order[k]], name)
    ensures PieceSet(Flatten(replies)) == Union(stores, name)
  {
    forall p | p in PieceSet(Flatten(replies))
      ensures p in Union(stores, name)
    {
      var b :| b in Flatten(replies) && PieceOf(b) == p;
      FlattenMembers(replies, b);
      var k :| 0 <= k < |replies| && b in replies[k];
      ReplyIsHeld(stores[order[k]], name);
      assert p in Held(stores[order[k]], name);
    }
    forall p | p in Union(stores, name)
      ensures p in PieceSet(Flatten(replies))
    {
      var i :| 0 <= i < |stores| && p in Held(stores[i], name);
      ReplyIsHeld(stores[i], name);
      var b :| b in Reply(stores[i], name) && PieceOf(b) == p;
      assert i in order;
      var k :| 0 <= k < |order| && order[k] == i;
      assert b in replies[k];
      FlattenMembers(replies, b);
    }
  }

  /** `merge_update` on one replica: drop the file and recreate it with the merged bytes. */
  method MergeUpdate(store: BlockStore, name: string, content: string, fileID: nat, primary: nat)
    requires store.Valid()
    modifies store
    ensures store.Valid()
    ensures store.dirs == if DirOf(name) == "" then map[]
      else Removed(old(store.dirs), DirOf(name))[DirOf(name) := Created(name, content, fileID, primary, MERGED_CLIENT)]
  {
    RemovedIsFree(store.dirs, DirOf(name));
    store.DeleteFile(name);
    var ok := store.CreateFile(name, content, fileID, primary, MERGED_CLIENT);
  }

  /** The store's directories are those of `before` with the file's directory replaced by `f`, and
      nothing nested in it. */
  ghost predicate OnlyFileReplaced(store: BlockStore, before: map<string, FileDir>, d: string, f: FileDir)
    reads store
  {
    store.dirs == Removed(before, d)[d := f]
  }

  /** `before` are the directories of the replicas up to the file itself. */
  ghost predicate SameElsewhere(stores: seq<BlockStore>, before: seq<map<string, FileDir>>, d: string)
    reads set s | s in stores
  {
    |before| == |stores| && forall i :: 0 <= i < |stores| ==> Removed(stores[i].dirs, d) == Removed(before[i], d)
  }

  /** On every replica only the file was replaced. */
  ghost predicate AllReplaced(stores: seq<BlockStore>, before: seq<map<string, FileDir>>, d: string, f: FileDir)
    reads set s | s in stores
  {
    |before| == |stores| && forall i :: 0 <= i < |stores| ==> OnlyFileReplaced(stores[i], before[i], d, f)
  }

  method Redistribute(stores: seq<BlockStore>, ghost before: seq<map<string, FileDir>>, name: string, content: string, fileID: nat, primary: nat)
    requires Replicas(stores) && SameElsewhere(stores, before, DirOf(name)) && DirOf(name) != ""
    modifies set s | s in stores
    ensures Replicas(stores)
    ensures AllReplaced(stores, before, DirOf(name), Created(name, content, fileID, primary, MERGED_CLIENT))
  {
    for k := 0 to |stores|
      invariant Replicas(stores)
      invariant forall i :: 0 <= i < k ==>
        OnlyFileReplaced(stores[i], before[i], DirOf(name), Created(name, content, fileID, primary, MERGED_CLIENT))
      invariant forall i :: k <= i < |stores| ==> Removed(stores[i].dirs, DirOf(name)) == Removed(before[i], DirOf(name))
    {
      MergeUpdate(stores[k], name, content, fileID, primary);
    }
  }

  /** The collected blocks, deduplicated, in some order. */
  method Deduplicate(replies: seq<seq<BlockInfo>>) returns (slice: seq<BlockInfo>)
    ensures var all := Collected(Flatten(replies)); forall b :: b in slice <==> KeyOf(b) in all && all[KeyOf(b)] == b
    ensures forall i, j :: 0 <= i < j < |slice| ==> KeyOf(slice[i]) != KeyOf(slice[j])
  {
    var all := CollectBlocks(replies);
    CollectedKeys(Flatten(replies));
    slice := MapToSlice(all);
  }

  lemma UpdateElsewhere<T>(before: map<string, T>, after: map<string, T>, d: string)
    ensures (after == before || (d in after && after == before[d := after[d]])) ==> Removed(after, d) == Removed(before, d)
  {
    if d in after && after == before[d := after[d]] {
      RemovedAfterUpdate(before, d, after[d]);
    }
  }

  /** Sort the deduplicated blocks into the primary's file and read it back. */
  method SortAndRead(store: BlockStore, name: string, slice: seq<BlockInfo>) returns (ok: bool, content: string, ghost sorted: seq<BlockInfo>)
    requires store.Valid()
    modifies store
    ensures store.Valid()
    ensures ok <==> DirOf(name) in old(store.dirs)
    ensures !ok ==> store.dirs == old(store.dirs)
    ensures Removed(store.dirs, DirOf(name)) == Removed(old(store.dirs), DirOf(name))
    ensures ok ==> InMergeOrder(sorted) && multiset(sorted) == multiset(slice) && content == Concat(PiecesOf(sorted))
  {
    content := "";
    ghost var before := store.dirs;
    ok, sorted := store.MergeFile(name, slice);
    UpdateElsewhere(before, store.dirs, DirOf(name));
    if ok {
      MergedPieces(before[DirOf(name)], sorted);
      var read := store.ReadFile(name);
      content := read.value;
    }
  }

  /** Collect, deduplicate and sort on the primary, and read the merged file back. */
  method MergeAtPrimary(store: BlockStore, name: string, replies: seq<seq<BlockInfo>>) returns (ok: bool, content: string)
    requires store.Valid()
    modifies store
    ensures store.Valid()
    ensures ok <==> DirOf(name) in old(store.dirs)
    ensures !ok ==> store.dirs == old(store.dirs)
    ensures Removed(store.dirs, DirOf(name)) == Removed(old(store.dirs), DirOf(name))
    ensures ok && Agree(PieceSet(Flatten(replies))) ==> IsMergeOf(content, PieceSet(Flatten(replies)))
  {
    var slice := Deduplicate(replies);
    ghost var sorted;
    ok, content, sorted := SortAndRead(store, name, slice);
    if ok { MergeOutcome(Flatten(replies), slice, sorted); }
  }

  /** Steps 1 to 3 of the merge: collect from all replicas and merge on the primary, `stores[0]`. */
  method CollectAndMerge(stores: seq<BlockStore>, order: seq<nat>, name: string, ghost union: set<Piece>)
    returns (ok: bool, content: string)
    requires Replicas(stores) && Arrivals(order, |stores|) && union == Union(stores, name)
    modifies stores[0]
    ensures Replicas(stores)
    ensures ok <==> DirOf(name) in old(stores[0].dirs)
    ensures !ok ==> stores[0].dirs == old(stores[0].dirs)
    ensures Removed(stores[0].dirs, DirOf(name)) == Removed(old(stores[0].dirs), DirOf(name))
    ensures ok && Agree(union) ==> IsMergeOf(content, union)
  {
    var replies := GatherReplies(stores, order, name);
    ok, content := MergeAtPrimary(stores[0], name, replies);
  }

  lemma StillElsewhere(stores: seq<BlockStore>, before: seq<map<string, FileDir>>, d: string)
    requires |before| == |stores| > 0 && Removed(stores[0].dirs, d) == Removed(before[0], d)
    requires forall i :: 0 < i < |stores| ==> stores[i].dirs == before[i]
    ensures SameElsewhere(stores, before, d)
  {}

  ghost function Snapshot(stores: seq<BlockStore>): (dirs: seq<map<string, FileDir>>)
    reads set s | s in stores
    ensures |dirs| == |stores| && forall i :: 0 <= i < |stores| ==> dirs[i] == stores[i].dirs
  {
    seq(|stores|, i requires 0 <= i < |stores| reads set s | s in stores => stores[i].dirs)
  }

  /** The merge as the primary, `stores[0]`, runs it while no append is under way. It stops
      without effect when the primary lacks the file. */
  method HandleMerge(stores: seq<BlockStore>, order: seq<nat>, name: string, fileID: nat, primary: nat)
    returns (ok: bool, content: string)
    requires Replicas(stores) && Arrivals(order, |stores|)
    modifies set s | s in stores
    ensures Replicas(stores)
    ensures ok <==> DirOf(name) in old(stores[0].dirs)
    ensures !ok ==> forall i :: 0 <= i < |stores| ==> stores[i].dirs == old(stores[i].dirs)
    ensures ok ==>
      AllReplaced(stores, old(Snapshot(stores)), DirOf(name), Created(name, content, fileID, primary, MERGED_CLIENT))
    ensures ok && Agree(old(Union(stores, name))) ==> IsMergeOf(content, old(Union(stores, name)))
  {
    ghost var before := Snapshot(stores);
    ghost var union := Union(stores, name);
    ok, content := CollectAndMerge(stores, order, name, union);
    if ok {
      forall i | 0 < i < |stores| ensures stores[i].dirs == before[i] {
        assert stores[i] != stores[0];
      }
      StillElsewhere(stores, before, DirOf(name));
      Redistribute(stores, before, name, content, fileID, primary);
    }
  }

  /** A single merged piece merges to itself. */
  lemma MergedPieceIsStable(content: string, again: string)
    requires IsMergeOf(again, {Piece(MERGED_CLIENT, 1, content)})
    ensures again == content
  {
    var s := [Piece(MERGED_CLIENT, 1, content)];
    assert StrictlySorted(s) && Elements(s) == {s[0]};
    assert Concat(s) == Concat(s[..0]) + content;
    MergeIsUnique(again, content, {s[0]});
  }

  lemma UnionOfMerged(stores: seq<BlockStore>, name: string, content: string, fileID: nat, primary: nat)
    requires |stores| > 0
    requires forall i :: 0 <= i < |stores| ==> DirOf(name) in stores[i].dirs
    requires forall i :: 0 <= i < |stores| ==>
      stores[i].dirs[DirOf(name)] == Created(name, content, fileID, primary, MERGED_CLIENT)
    ensures Union(stores, name) == {Piece(MERGED_CLIENT, 1, content)}
  {
    CreatedPieces(name, content, fileID, primary, MERGED_CLIENT);
    var only := Piece(MERGED_CLIENT, 1, content);
    assert forall i :: 0 <= i < |stores| ==> Held(stores[i], name) == {only};
    assert only in Held(stores[0], name);
  }

  predicate NothingNested<T>(m: map<string, T>, d: string) {
    forall k :: k in m && Below(k, d) ==> k == d
  }

  lemma SameUpdate<T>(m: map<string, T>, d: string, f: T)
    requires d in m && m[d] == f && NothingNested(m, d)
    ensures Removed(m, d)[d := f] == m
  {}

  /** A merge leaves nothing nested, so a second one finds what it needs. */
  lemma MergedIsAlone<T>(before: map<string, T>, d: string, f: T)
    ensures NothingNested(Removed(before, d)[d := f], d)
  {}

  lemma SingletonAgrees(p: Piece)
    ensures Agree({p})
  {}

  /** Every replica holds exactly the merged content. */
  ghost predicate AllMerged(stores: seq<BlockStore>, name: string, f: FileDir)
    reads set s | s in stores
  {
    forall i :: 0 <= i < |stores| ==>
      DirOf(name) in stores[i].dirs && stores[i].dirs[DirOf(name)] == f && NothingNested(stores[i].dirs, DirOf(name))
  }

  /** A second merge right after the first changes nothing on any replica. */
  method SecondMerge(stores: seq<BlockStore>, order: seq<nat>, name: string, content: string, fileID: nat, primary: nat)
    requires Replicas(stores) && Arrivals(order, |stores|)
    requires AllMerged(stores, name, Created(name, content, fileID, primary, MERGED_CLIENT))
    modifies set s | s in stores
    ensures forall i :: 0 <= i < |stores| ==> stores[i].dirs == old(stores[i].dirs)
  {
    UnionOfMerged(stores, name, content, fileID, primary);
    SingletonAgrees(Piece(MERGED_CLIENT, 1, content));
    var ok, again := HandleMerge(stores, order, name, fileID, primary);
    MergedPieceIsStable(content, again);
    forall i | 0 <= i < |stores| ensures stores[i].dirs == old(stores[i].dirs) {
      SameUpdate(old(stores[i].dirs), DirOf(name), Created(name, content, fileID, primary, MERGED_CLIENT));
    }
  }
}
