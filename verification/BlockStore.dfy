/** The block store of one node: append-only files of numbered blocks with per-client sequencing. */
module BlockStorage {
  import opened FileNames
  import opened Maybe
  import opened Text

  datatype BlockMeta = BlockMeta(number: nat, client: string, sequence: nat)

  datatype FileMetadata = FileMetadata(
    fileID: nat, name: string, primary: nat, totalBlocks: nat,
    sequences: map<string, nat>, blocks: seq<BlockMeta>)

  /** A file's directory: its metadata and its block files by number. */
  datatype FileDir = FileDir(meta: FileMetadata, files: map<nat, string>)

  /** A block as replicas exchange it for a merge. */
  datatype BlockInfo = BlockInfo(content: string, client: string, sequence: nat, number: nat)

  /** What one append contributed: its client, its place in that client's order, its bytes. */
  datatype Piece = Piece(client: string, sequence: nat, content: string)

  // ---------- names ----------

  /** `block_%02d.txt` */
  function BlockFileName(number: nat): string {
    "block_" + Padded(number) + ".txt"
  }

  function Padded(n: nat): string {
    if n < 10 then "0" + Decimal(n) else Decimal(n)
  }

  lemma BlockFileNamesDiffer(m: nat, n: nat)
    requires BlockFileName(m) == BlockFileName(n)
    ensures m == n
  {
    assert |Padded(m)| == |Padded(n)|;
    assert Padded(m) == BlockFileName(m)[6..6 + |Padded(m)|];
    assert Padded(n) == BlockFileName(n)[6..6 + |Padded(n)|];
    PaddedNumber(m);
    PaddedNumber(n);
  }

  lemma PaddedNumber(n: nat)
    ensures NumberOf(Padded(n)) == n
  {
    DecimalRoundTrip(n);
    if n < 10 {
      var s := Padded(n);
      assert s[..1] == "0" && "0"[..0] == "";
      assert NumberOf("0") == 0;
    }
  }

  // ---------- one file ----------

  function SequenceOf(sequences: map<string, nat>, client: string): nat {
    if client in sequences then sequences[client] else 0
  }

  /** The highest sequence number a client has among the blocks. */
  function HighestSequence(pieces: seq<Piece>, client: string): nat {
    if pieces == [] then 0
    else
      var h := HighestSequence(pieces[..|pieces| - 1], client);
      var p := pieces[|pieces| - 1];
      if p.client == client && p.sequence > h then p.sequence else h
  }

  function Numbers(n: nat): (s: set<nat>)
    ensures forall k: nat :: k in s <==> 1 <= k <= n
  {
    if n == 0 then {} else Numbers(n - 1) + {n}
  }

  /** Blocks are numbered from 1 without gaps, each with its file and its metadata. */
  ghost predicate Numbered(f: FileDir) {
    && f.meta.totalBlocks == |f.meta.blocks|
    && f.files.Keys == Numbers(f.meta.totalBlocks)
    && forall i :: 0 <= i < |f.meta.blocks| ==> f.meta.blocks[i].number == i + 1
  }

  function Pieces(f: FileDir): (p: seq<Piece>)
    requires Numbered(f)
    ensures |p| == |f.meta.blocks|
  {
    seq(|f.meta.blocks|, i requires 0 <= i < |f.meta.blocks| =>
      Piece(f.meta.blocks[i].client, f.meta.blocks[i].sequence, f.files[i + 1]))
  }

  ghost predicate Consistent(f: FileDir) {
    Numbered(f) && forall c :: SequenceOf(f.meta.sequences, c) == HighestSequence(Pieces(f), c)
  }

  function Concat(pieces: seq<Piece>): string {
    if pieces == [] then "" else Concat(pieces[..|pieces| - 1]) + pieces[|pieces| - 1].content
  }

  /** What a read of the file returns. */
  function Contents(f: FileDir): string
    requires Numbered(f)
  {
    Concat(Pieces(f))
  }

  /** A directory as `CreateFile` leaves it. */
  function Created(name: string, content: string, fileID: nat, primary: nat, client: string): FileDir {
    FileDir(FileMetadata(fileID, name, primary, 1, map[client := 1], [BlockMeta(1, client, 1)]), map[1 := content])
  }

  /** A directory as `AppendFile` initialises it when the file is missing. */
  function Empty(name: string): FileDir {
    FileDir(FileMetadata(0, name, 0, 0, map[], []), map[])
  }

  function FileOrEmpty(dirs: map<string, FileDir>, name: string): FileDir {
    if DirOf(name) in dirs then dirs[DirOf(name)] else Empty(name)
  }

  function Appended(f: FileDir, content: string, client: string): FileDir {
    var n := f.meta.totalBlocks + 1;
    var s := SequenceOf(f.meta.sequences, client) + 1;
    FileDir(f.meta.(totalBlocks := n, sequences := f.meta.sequences[client := s],
                    blocks := f.meta.blocks + [BlockMeta(n, client, s)]),
            f.files[n := content])
  }

  /** The file is known by this name, ring hash and primary. */
  predicate Describes(f: FileDir, name: string, fileID: nat, primary: nat) {
    f.meta.name == name && f.meta.fileID == fileID && f.meta.primary == primary
  }

  lemma CreatedPieces(name: string, content: string, fileID: nat, primary: nat, client: string)
    ensures Consistent(Created(name, content, fileID, primary, client))
    ensures Pieces(Created(name, content, fileID, primary, client)) == [Piece(client, 1, content)]
    ensures Contents(Created(name, content, fileID, primary, client)) == content
    ensures Describes(Created(name, content, fileID, primary, client), name, fileID, primary)
  {
    var f := Created(name, content, fileID, primary, client);
    assert Numbers(1) == {1};
    var p := Pieces(f);
    assert p == [Piece(client, 1, content)];
    assert p[..0] == [];
    assert forall c :: HighestSequence(p[..0], c) == 0;
    assert Concat(p) == Concat(p[..0]) + content;
    assert Concat(p[..0]) == "";
  }

  lemma EmptyPieces(name: string)
    ensures Consistent(Empty(name)) && Pieces(Empty(name)) == [] && Describes(Empty(name), name, 0, 0)
  {
  }

  /** An append adds one piece at the end, with the client's next sequence number. */
  lemma AppendedPieces(f: FileDir, content: string, client: string)
    requires Consistent(f)
    ensures Consistent(Appended(f, content, client))
    ensures Pieces(Appended(f, content, client))
         == Pieces(f) + [Piece(client, HighestSequence(Pieces(f), client) + 1, content)]
    ensures Contents(Appended(f, content, client)) == Contents(f) + content
    ensures Describes(Appended(f, content, client), f.meta.name, f.meta.fileID, f.meta.primary)
  {
    var n := f.meta.totalBlocks;
    AppendedNumbering(f, content, client);
    var p := Pieces(Appended(f, content, client));
    assert SequenceOf(f.meta.sequences, client) == HighestSequence(Pieces(f), client);
    assert p[..n] == Pieces(f);
    AppendedSequences(Pieces(f), p[n]);
  }

  lemma AppendedNumbering(f: FileDir, content: string, client: string)
    requires Numbered(f)
    ensures Numbered(Appended(f, content, client))
    ensures Pieces(Appended(f, content, client))
         == Pieces(f) + [Piece(client, SequenceOf(f.meta.sequences, client) + 1, content)]
  {
    var g := Appended(f, content, client);
    assert Numbered(g);
    var last := Piece(client, SequenceOf(f.meta.sequences, client) + 1, content);
    assert |Pieces(g)| == |Pieces(f)| + 1;
    forall i | 0 <= i < |Pieces(g)|
      ensures Pieces(g)[i] == (Pieces(f) + [last])[i]
    {
    }
  }

  lemma AppendedSequences(pieces: seq<Piece>, last: Piece)
    requires last.sequence == HighestSequence(pieces, last.client) + 1
    ensures forall c :: HighestSequence(pieces + [last], c)
                     == if c == last.client then last.sequence else HighestSequence(pieces, c)
  {
    assert (pieces + [last])[..|pieces|] == pieces;
  }

  // ---------- merging ----------

  function PieceOf(b: BlockInfo): Piece {
    Piece(b.client, b.sequence, b.content)
  }

  function PiecesOf(blocks: seq<BlockInfo>): (p: seq<Piece>)
    ensures |p| == |blocks|
    ensures forall i :: 0 <= i < |p| ==> p[i] == PieceOf(blocks[i])
  {
    seq(|blocks|, i requires 0 <= i < |blocks| => PieceOf(blocks[i]))
  }

  /** The blocks of a file as `GetAllBlocks` reports them. */
  function Infos(f: FileDir): seq<BlockInfo>
    requires Numbered(f)
  {
    seq(|f.meta.blocks|, i requires 0 <= i < |f.meta.blocks| =>
      BlockInfo(f.files[i + 1], f.meta.blocks[i].client, f.meta.blocks[i].sequence, i + 1))
  }

  /** The report is the file: its pieces in order, numbered from 1. */
  lemma InfosArePieces(f: FileDir)
    requires Numbered(f)
    ensures PiecesOf(Infos(f)) == Pieces(f)
    ensures forall i :: 0 <= i < |Infos(f)| ==> Infos(f)[i].number == i + 1
  {
    assert forall i :: 0 <= i < |Pieces(f)| ==> PiecesOf(Infos(f))[i] == Pieces(f)[i];
  }

  /** The sequence map as `MergeFile` rebuilds it: a higher number replaces a lower one. */
  function RebuiltSequences(blocks: seq<BlockInfo>): map<string, nat> {
    if blocks == [] then map[]
    else
      var m := RebuiltSequences(blocks[..|blocks| - 1]);
      var b := blocks[|blocks| - 1];
      if b.sequence > SequenceOf(m, b.client) then m[b.client := b.sequence] else m
  }

  function Renumbered(blocks: seq<BlockInfo>): seq<BlockMeta> {
    seq(|blocks|, i requires 0 <= i < |blocks| => BlockMeta(i + 1, blocks[i].client, blocks[i].sequence))
  }

  function BlockFiles(blocks: seq<BlockInfo>): (m: map<nat, string>)
    ensures m.Keys == Numbers(|blocks|)
    ensures forall i :: 0 <= i < |blocks| ==> m[i + 1] == blocks[i].content
  {
    if blocks == [] then map[]
    else BlockFiles(blocks[..|blocks| - 1])[|blocks| := blocks[|blocks| - 1].content]
  }

  /** The directory after a merge that sorted the collected blocks into `sorted`. */
  function Merged(f: FileDir, sorted: seq<BlockInfo>): FileDir {
    FileDir(f.meta.(totalBlocks := |sorted|, blocks := Renumbered(sorted), sequences := RebuiltSequences(sorted)),
            BlockFiles(sorted))
  }

  lemma {:induction false} RebuiltIsHighest(blocks: seq<BlockInfo>, client: string)
    ensures SequenceOf(RebuiltSequences(blocks), client) == HighestSequence(PiecesOf(blocks), client)
  {
    if blocks == [] {
    } else {
      var init := blocks[..|blocks| - 1];
      RebuiltIsHighest(init, client);
      assert PiecesOf(blocks)[..|blocks| - 1] == PiecesOf(init);
    }
  }

  lemma MergedPieces(f: FileDir, sorted: seq<BlockInfo>)
    ensures Consistent(Merged(f, sorted))
    ensures Pieces(Merged(f, sorted)) == PiecesOf(sorted)
    ensures Describes(Merged(f, sorted), f.meta.name, f.meta.fileID, f.meta.primary)
  {
    var g := Merged(f, sorted);
    assert g.files.Keys == Numbers(|sorted|);
    assert Pieces(g) == PiecesOf(sorted);
    forall c
      ensures SequenceOf(g.meta.sequences, c) == HighestSequence(Pieces(g), c)
    {
      RebuiltIsHighest(sorted, c);
    }
  }

  /** The comparison of the merge sort: client first, then sequence. */
  predicate After(a: BlockInfo, b: BlockInfo) {
    Less(b.client, a.client) || (a.client == b.client && a.sequence > b.sequence)
  }

  ghost predicate InMergeOrder(blocks: seq<BlockInfo>) {
    forall i, j :: 0 <= i < j < |blocks| ==> !After(blocks[i], blocks[j])
  }

  lemma NotAfterTransitive(a: BlockInfo, b: BlockInfo, c: BlockInfo)
    requires !After(a, b) && !After(b, c)
    ensures !After(a, c)
  {
    LessTotal(a.client, b.client);
    LessTotal(b.client, c.client);
    if a.client != b.client { LessAsymmetric(a.client, b.client); }
    if Less(a.client, b.client) && Less(b.client, c.client) {
      LessTransitive(a.client, b.client, c.client);
      LessAsymmetric(a.client, c.client);
    }
  }

  lemma AfterAsymmetric(a: BlockInfo, b: BlockInfo)
    requires After(a, b)
    ensures !After(b, a)
  {
    if Less(b.client, a.client) { LessAsymmetric(b.client, a.client); }
    LessIrreflexive(a.client);
  }

  /** The first `k` blocks are in their final places. */
  ghost predicate SettledUpTo(blocks: seq<BlockInfo>, k: nat) {
    forall p, q :: 0 <= p < k && p < q < |blocks| ==> !After(blocks[p], blocks[q])
  }

  ghost predicate LeastUpTo(blocks: seq<BlockInfo>, i: nat, j: nat)
    requires i < |blocks| && j <= |blocks|
  {
    forall k :: i < k < j ==> !After(blocks[i], blocks[k])
  }

  lemma SwapKeepsOrder(s: seq<BlockInfo>, i: nat, j: nat)
    requires i < j < |s| && SettledUpTo(s, i) && LeastUpTo(s, i, j) && After(s[i], s[j])
    ensures SettledUpTo(s[i := s[j]][j := s[i]], i)
    ensures LeastUpTo(s[i := s[j]][j := s[i]], i, j + 1)
  {
    AfterAsymmetric(s[i], s[j]);
    forall k | i < k < j
      ensures !After(s[j], s[k])
    {
      NotAfterTransitive(s[j], s[i], s[k]);
    }
  }

  method Swap(a: array<BlockInfo>, i: nat, j: nat)
    requires i < j < a.Length
    modifies a
    ensures a[..] == old(a[..][i := a[j]][j := a[i]])
    ensures multiset(a[..]) == old(multiset(a[..]))
  {
    a[i], a[j] := a[j], a[i];
  }

  /** One round of the exchange sort: bring the least of `a[i..]` to position `i`. */
  method ExchangeRound(a: array<BlockInfo>, i: nat)
    requires i < a.Length && SettledUpTo(a[..], i)
    modifies a
    ensures multiset(a[..]) == old(multiset(a[..]))
    ensures SettledUpTo(a[..], i + 1)
  {
    var j := i + 1;
    while j < a.Length
      invariant i < j <= a.Length
      invariant multiset(a[..]) == old(multiset(a[..]))
      invariant SettledUpTo(a[..], i) && LeastUpTo(a[..], i, j)
    {
      if After(a[i], a[j]) {
        SwapKeepsOrder(a[..], i, j);
        Swap(a, i, j);
      }
      j := j + 1;
    }
  }

  /** The exchange sort of `MergeFile`, in place. */
  method SortBlocks(a: array<BlockInfo>)
    modifies a
    ensures InMergeOrder(a[..]) && multiset(a[..]) == old(multiset(a[..]))
  {
    var i := 0;
    while i < a.Length
      invariant 0 <= i <= a.Length
      invariant multiset(a[..]) == old(multiset(a[..]))
      invariant SettledUpTo(a[..], i)
    {
      ExchangeRound(a, i);
      i := i + 1;
    }
  }

  // ---------- the store ----------

  ghost predicate AllConsistent(dirs: map<string, FileDir>) {
    "" !in dirs && forall d :: d in dirs ==> Consistent(dirs[d])
  }

  lemma UpdateStaysConsistent(dirs: map<string, FileDir>, d: string, f: FileDir)
    requires AllConsistent(dirs) && Consistent(f) && d != ""
    ensures AllConsistent(dirs[d := f])
  {
  }

  lemma SecondUpdate<T>(m: map<string, T>, d: string, first: T, second: T)
    ensures m[d := first][d := second] == m[d := second]
  {}

  lemma AppendStaysConsistent(dirs: map<string, FileDir>, name: string, content: string, client: string)
    requires AllConsistent(dirs)
    ensures Consistent(FileOrEmpty(dirs, name))
    ensures DirOf(name) != "" ==> AllConsistent(dirs[DirOf(name) := Appended(FileOrEmpty(dirs, name), content, client)])
  {
    EmptyPieces(name);
    AppendedPieces(FileOrEmpty(dirs, name), content, client);
    if DirOf(name) != "" {
      UpdateStaysConsistent(dirs, DirOf(name), Appended(FileOrEmpty(dirs, name), content, client));
    }
  }

  class BlockStore {
    var dirs: map<string, FileDir>

    ghost predicate Valid()
      reads this
    {
      AllConsistent(dirs)
    }

    constructor ()
      ensures Valid() && dirs == map[]
    {
      dirs := map[];
    }

    /** Fails, changing nothing, when the directory exists already: for this file, for another one
        with the same stem, or on the way to a nested one. */
    method CreateFile(name: string, content: string, fileID: nat, primary: nat, client: string) returns (ok: bool)
      requires Valid()
      modifies this
      ensures Valid()
      ensures ok <==> !Occupied(old(dirs), DirOf(name))
      ensures dirs == if ok then old(dirs)[DirOf(name) := Created(name, content, fileID, primary, client)] else old(dirs)
    {
      var dir := DirOf(name);
      if Occupied(dirs, dir) { return false; }
      var metadata := FileMetadata(fileID, name, primary, 1, map[client := 1], [BlockMeta(1, client, 1)]);
      dirs := dirs[dir := FileDir(metadata, map[1 := content])];
      CreatedPieces(name, content, fileID, primary, client);
      ok := true;
    }

    /** Adds one block, creating an empty file first when there is no such directory. Fails, changing
        nothing, for a directory that holds no file itself. */
    method AppendFile(name: string, content: string, client: string) returns (ok: bool)
      requires Valid()
      modifies this
      ensures Valid()
      ensures ok <==> DirOf(name) in old(dirs) || !Occupied(old(dirs), DirOf(name))
      ensures dirs == if ok then old(dirs)[DirOf(name) := Appended(FileOrEmpty(old(dirs), name), content, client)] else old(dirs)
    {
      var dir := DirOf(name);
      ghost var before := dirs;
      AppendStaysConsistent(before, name, content, client);
      if !Occupied(dirs, dir) {
        InitializeFile(dir, name);
        SecondUpdate(before, dir, Empty(name), Appended(Empty(name), content, client));
      }
      if dir !in dirs { return false; }
      var f := AddBlock(dirs[dir], content, client);
      dirs := dirs[dir := f];
      ok := true;
    }

    method InitializeFile(dir: string, name: string)
      modifies this
      ensures dirs == old(dirs)[dir := Empty(name)]
    {
      dirs := dirs[dir := FileDir(FileMetadata(0, name, 0, 0, map[], []), map[])];
    }

    method ReadFile(name: string) returns (r: Option<string>)
      requires Valid()
      ensures r == if DirOf(name) in dirs then Some(Contents(dirs[DirOf(name)])) else None
    {
      var dir := DirOf(name);
      if dir !in dirs { return None; }
      var f := dirs[dir];
      var content := "";
      var i := 1;
      ghost var pieces := Pieces(f);
      while i <= f.meta.totalBlocks
        invariant 1 <= i <= f.meta.totalBlocks + 1
        invariant content == Concat(pieces[..i - 1])
      {
        assert pieces[..i][..i - 1] == pieces[..i - 1];
        content := content + f.files[i];
        i := i + 1;
      }
      assert pieces[..i - 1] == pieces;
      r := Some(content);
    }

    method GetAllBlocks(name: string) returns (r: Option<seq<BlockInfo>>)
      requires Valid()
      ensures r == if DirOf(name) in dirs then Some(Infos(dirs[DirOf(name)])) else None
      ensures r.Some? ==> PiecesOf(r.value) == Pieces(dirs[DirOf(name)])
      ensures r.Some? ==> forall i :: 0 <= i < |r.value| ==> r.value[i].number == i + 1
    {
      var dir := DirOf(name);
      if dir !in dirs { return None; }
      var f := dirs[dir];
      var blocks: seq<BlockInfo> := [];
      var i := 1;
      while i <= f.meta.totalBlocks
        invariant 1 <= i <= f.meta.totalBlocks + 1
        invariant blocks == Infos(f)[..i - 1]
      {
        var m := f.meta.blocks[i - 1];
        blocks := blocks + [BlockInfo(f.files[i], m.client, m.sequence, i)];
        i := i + 1;
      }
      assert blocks == Infos(f);
      InfosArePieces(f);
      r := Some(blocks);
    }

    /** Removes the file's directory, with every file of the same stem and every nested one. */
    method DeleteFile(name: string)
      requires Valid()
      modifies this
      ensures Valid() && dirs == Removed(old(dirs), DirOf(name))
    {
      dirs := Removed(dirs, DirOf(name));
    }

    /** Replaces the blocks of a file by the given ones in (client, sequence) order. */
    method MergeFile(name: string, allBlocks: seq<BlockInfo>) returns (ok: bool, ghost sorted: seq<BlockInfo>)
      requires Valid()
      modifies this
      ensures Valid()
      ensures ok <==> DirOf(name) in old(dirs)
      ensures !ok ==> dirs == old(dirs)
      ensures ok ==> InMergeOrder(sorted) && multiset(sorted) == multiset(allBlocks)
      ensures ok ==> dirs == old(dirs)[DirOf(name) := Merged(old(dirs)[DirOf(name)], sorted)]
    {
      var dir := DirOf(name);
      if dir !in dirs { return false, []; }
      var f := dirs[dir];
      var sortedBlocks := new BlockInfo[|allBlocks|](i requires 0 <= i < |allBlocks| => allBlocks[i]);
      assert sortedBlocks[..] == allBlocks;
      SortBlocks(sortedBlocks);
      sorted := sortedBlocks[..];
      var files, metas := WriteBlocks(sortedBlocks);
      var sequences := RebuildSequenceMap(sortedBlocks);
      var metadata := f.meta.(totalBlocks := sortedBlocks.Length, blocks := metas, sequences := sequences);
      MergedPieces(f, sorted);
      UpdateStaysConsistent(dirs, dir, Merged(f, sorted));
      dirs := dirs[dir := FileDir(metadata, files)];
      ok := true;
    }
  }

  /** The metadata updates of `AppendFile`, in the order the code makes them. */
  method AddBlock(f: FileDir, content: string, client: string) returns (r: FileDir)
    ensures r == Appended(f, content, client)
  {
    var metadata := f.meta;
    metadata := metadata.(totalBlocks := metadata.totalBlocks + 1);
    var sequence := if client in metadata.sequences then metadata.sequences[client] else 0;
    metadata := metadata.(sequences := metadata.sequences[client := sequence + 1]);
    metadata := metadata.(blocks := metadata.blocks + [BlockMeta(metadata.totalBlocks, client, metadata.sequences[client])]);
    r := FileDir(metadata, f.files[metadata.totalBlocks := content]);
  }

  lemma OneMoreFile(blocks: seq<BlockInfo>, i: nat)
    requires i < |blocks|
    ensures BlockFiles(blocks[..i + 1]) == BlockFiles(blocks[..i])[i + 1 := blocks[i].content]
  {
    var all := blocks[..i + 1];
    assert all[..|all| - 1] == blocks[..i] && |all| == i + 1;
    assert all[|all| - 1] == blocks[i];
  }

  lemma OneMoreNumber(blocks: seq<BlockInfo>, i: nat)
    requires i < |blocks|
    ensures Renumbered(blocks[..i + 1]) == Renumbered(blocks[..i]) + [BlockMeta(i + 1, blocks[i].client, blocks[i].sequence)]
  {}

  /** The loop of `MergeFile` that writes the block files anew, from an empty directory. */
  method WriteBlocks(blocks: array<BlockInfo>) returns (files: map<nat, string>, metas: seq<BlockMeta>)
    ensures files == BlockFiles(blocks[..]) && metas == Renumbered(blocks[..])
  {
    files, metas := map[], [];
    for i := 0 to blocks.Length
      invariant files == BlockFiles(blocks[..i]) && metas == Renumbered(blocks[..i])
    {
      OneMoreFile(blocks[..], i);
      OneMoreNumber(blocks[..], i);
      assert blocks[..][..i] == blocks[..i] && blocks[..][..i + 1] == blocks[..i + 1];
      files := files[i + 1 := blocks[i].content];
      metas := metas + [BlockMeta(i + 1, blocks[i].client, blocks[i].sequence)];
    }
    assert blocks[..blocks.Length] == blocks[..];
  }

  method RebuildSequenceMap(blocks: array<BlockInfo>) returns (sequences: map<string, nat>)
    ensures sequences == RebuiltSequences(blocks[..])
  {
    sequences := map[];
    for i := 0 to blocks.Length
      invariant sequences == RebuiltSequences(blocks[..i])
    {
      assert blocks[..i + 1][..i] == blocks[..i];
      var current := if blocks[i].client in sequences then sequences[blocks[i].client] else 0;
      if blocks[i].sequence > current {
        sequences := sequences[blocks[i].client := blocks[i].sequence];
      }
    }
    assert blocks[..blocks.Length] == blocks[..];
  }
}
