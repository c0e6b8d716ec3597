/** The filtering and counting operators, and the CSV reader they use to find a key. */
module Operators {
  import opened Maybe
  import opened Text
  import P = Pipeline

  datatype Tuple = Tuple(key: string, value: string, id: string, eof: bool)

  // ---------- CSV lines ----------

  /** The fields of a line: quotes toggle, commas outside quotes separate, quotes are dropped.
      `current` is the part of the current field read so far. */
  function Fields(line: string, current: string, inQuotes: bool): (r: seq<string>)
    ensures |r| >= 1
  {
    if line == "" then [current]
    else if line[0] == '"' then Fields(line[1..], current, !inQuotes)
    else if line[0] == ',' && !inQuotes then [current] + Fields(line[1..], "", false)
    else Fields(line[1..], current + [line[0]], inQuotes)
  }

  method ParseCSVLine(line: string) returns (fields: seq<string>)
    ensures fields == Fields(line, "", false)
  {
    fields := [];
    var current := "";
    var inQuotes := false;
    var i := 0;
    while i < |line|
      invariant 0 <= i <= |line|
      invariant Fields(line, "", false) == fields + Fields(line[i..], current, inQuotes)
    {
      var c := line[i];
      assert line[i..][0] == c && line[i..][1..] == line[i + 1..];
      if c == '"' {
        inQuotes := !inQuotes;
      } else if c == ',' && !inQuotes {
        assert fields + ([current] + Fields(line[i + 1..], "", false)) == fields + [current] + Fields(line[i + 1..], "", false);
        fields := fields + [current];
        current := "";
      } else {
        current := current + [c];
      }
      i := i + 1;
    }
    fields := fields + [current];
  }

  /** A field as a CSV writer may put it: in quotes, or bare if it has no comma. */
  datatype Cell = Cell(text: string, quoted: bool)

  predicate Writable(cell: Cell) {
    '"' !in cell.text && (cell.quoted || ',' !in cell.text)
  }

  function WriteCell(cell: Cell): string {
    if cell.quoted then "\"" + cell.text + "\"" else cell.text
  }

  function WriteLine(cells: seq<Cell>): string
    requires cells != []
  {
    if |cells| == 1 then WriteCell(cells[0]) else WriteCell(cells[0]) + "," + WriteLine(cells[1..])
  }

  function Texts(cells: seq<Cell>): (r: seq<string>)
    ensures |r| == |cells| && forall i :: 0 <= i < |r| ==> r[i] == cells[i].text
  {
    seq(|cells|, i requires 0 <= i < |cells| => cells[i].text)
  }

  /** Text without quotes is read into the current field, commas only while quoted. */
  lemma {:induction false} ReadText(text: string, rest: string, current: string, inQuotes: bool)
    requires '"' !in text && (inQuotes || ',' !in text)
    ensures Fields(text + rest, current, inQuotes) == Fields(rest, current + text, inQuotes)
  {
    if text == "" {
      assert text + rest == rest && current + text == current;
    } else {
      assert text[0] in text;
      assert forall c :: c in text[1..] ==> c in text;
      assert (text + rest)[0] == text[0] && (text + rest)[1..] == text[1..] + rest;
      ReadText(text[1..], rest, current + [text[0]], inQuotes);
      assert current + [text[0]] + text[1..] == current + text;
    }
  }

  lemma ReadCell(cell: Cell, rest: string)
    requires Writable(cell)
    ensures Fields(WriteCell(cell) + rest, "", false) == Fields(rest, cell.text, false)
  {
    assert "" + cell.text == cell.text;
    if cell.quoted {
      var line := WriteCell(cell) + rest;
      assert line[0] == '"' && line[1..] == cell.text + ("\"" + rest);
      ReadText(cell.text, "\"" + rest, "", true);
      assert ("\"" + rest)[1..] == rest;
    } else {
      ReadText(cell.text, rest, "", false);
    }
  }

  /** Reading back what was written, whichever fields were quoted, gives the fields. */
  lemma {:induction false} CSVRoundTrip(cells: seq<Cell>)
    requires cells != [] && forall i :: 0 <= i < |cells| ==> Writable(cells[i])
    ensures Fields(WriteLine(cells), "", false) == Texts(cells)
  {
    if |cells| == 1 {
      assert WriteCell(cells[0]) + "" == WriteCell(cells[0]);
      ReadCell(cells[0], "");
    } else {
      var rest := "," + WriteLine(cells[1..]);
      assert WriteCell(cells[0]) + "," + WriteLine(cells[1..]) == WriteCell(cells[0]) + rest;
      ReadCell(cells[0], rest);
      assert rest[1..] == WriteLine(cells[1..]);
      CSVRoundTrip(cells[1..]);
      assert Texts(cells) == [cells[0].text] + Texts(cells[1..]);
    }
  }

  // ---------- columns ----------

  function Quotes(s: string): nat {
    if s == "" then 0 else Quotes(s[..|s| - 1]) + if s[|s| - 1] == '"' then 1 else 0
  }

  /** A comma with an even number of quotes before it. */
  predicate Separates(line: string, i: nat)
    requires i < |line|
  {
    line[i] == ',' && Quotes(line[..i]) % 2 == 0
  }

  /** How many commas of `line[..n]` separate columns. */
  function Separators(line: string, n: nat): nat
    requires n <= |line|
  {
    if n == 0 then 0 else Separators(line, n - 1) + if Separates(line, n - 1) then 1 else 0
  }

  /** What `line[..n]` has in column `c`, counted from 1: the characters with `c` - 1 separators before
      them, without quotes. */
  function Column(line: string, c: nat, n: nat): string
    requires n <= |line|
  {
    if n == 0 then ""
    else if line[n - 1] != '"' && !Separates(line, n - 1) && Separators(line, n - 1) + 1 == c then
      Column(line, c, n - 1) + [line[n - 1]]
    else Column(line, c, n - 1)
  }

  function Columns(line: string): nat {
    Separators(line, |line|) + 1
  }

  /** The columns that end before position `n`. */
  function Ended(line: string, n: nat): (r: seq<string>)
    requires n <= |line|
    ensures |r| == Separators(line, n)
  {
    seq(Separators(line, n), j requires 0 <= j => Column(line, j + 1, n))
  }

  lemma {:induction false} NothingBeyond(line: string, c: nat, n: nat)
    requires n <= |line| && c > Separators(line, n) + 1
    ensures Column(line, c, n) == ""
  {
    if n == 0 {
    } else {
      NothingBeyond(line, c, n - 1);
    }
  }

  lemma OneMoreCharacter(line: string, n: nat)
    requires n < |line|
    ensures Quotes(line[..n + 1]) == Quotes(line[..n]) + if line[n] == '"' then 1 else 0
    ensures Ended(line, n + 1) == if Separates(line, n) then Ended(line, n) + [Column(line, Separators(line, n) + 1, n)] else Ended(line, n)
  {
    assert line[..n + 1][..n] == line[..n];
  }

  /** The reader has read `line[..n]`: the columns ended are out, the next one is in hand. */
  lemma {:induction false} ReadTo(line: string, n: nat)
    requires n <= |line|
    ensures Fields(line, "", false) ==
      Ended(line, n) + Fields(line[n..], Column(line, Separators(line, n) + 1, n), Quotes(line[..n]) % 2 == 1)
  {
    if n == 0 {
      assert line[0..] == line && Ended(line, 0) == [];
    } else {
      ReadTo(line, n - 1);
      OneMoreCharacter(line, n - 1);
      assert line[n - 1..][0] == line[n - 1] && line[n - 1..][1..] == line[n..];
      if Separates(line, n - 1) {
        NothingBeyond(line, Separators(line, n) + 1, n - 1);
      }
    }
  }

  /** The fields of any line are its columns. */
  lemma FieldsAreColumns(line: string)
    ensures |Fields(line, "", false)| == Columns(line)
    ensures forall c :: 1 <= c <= Columns(line) ==> Fields(line, "", false)[c - 1] == Column(line, c, |line|)
  {
    ReadTo(line, |line|);
    assert line[|line|..] == "";
  }

  // ---------- the filter ----------

  /** The key of a matching tuple: its own, or the `column`-th field of its value (counted from 1),
      empty if there is no such field. */
  function KeyOf(column: int, key: string, value: string): string {
    if column <= 0 then key
    else
      var fields := Fields(value, "", false);
      if column <= |fields| then fields[column - 1] else ""
  }

  /** For any line: the key is the tuple's own for no column, else the text of the column, empty beyond
      the last one. */
  lemma KeyIsColumn(column: int, key: string, value: string)
    ensures column <= 0 ==> KeyOf(column, key, value) == key
    ensures 1 <= column <= Columns(value) ==> KeyOf(column, key, value) == Column(value, column, |value|)
    ensures column > Columns(value) ==> KeyOf(column, key, value) == ""
  {
    FieldsAreColumns(value);
  }

  /** For a written line it is the text of the cell, whichever cells were quoted. */
  lemma KeyIsCell(column: int, key: string, cells: seq<Cell>)
    requires cells != [] && forall i :: 0 <= i < |cells| ==> Writable(cells[i])
    ensures column <= 0 ==> KeyOf(column, key, WriteLine(cells)) == key
    ensures 1 <= column <= |cells| ==> KeyOf(column, key, WriteLine(cells)) == cells[column - 1].text
    ensures column > |cells| ==> KeyOf(column, key, WriteLine(cells)) == ""
  {
    CSVRoundTrip(cells);
  }

  /** The filter as the pipeline sees it. */
  function Grep(pattern: string -> bool, column: int): P.Operator {
    (p: P.Payload) =>
      if pattern(p.value) then Some(P.Payload(KeyOf(column, p.key, p.value), p.value)) else None
  }

  function Emitted(t: Tuple, r: Option<P.Payload>): seq<Tuple> {
    match r
    case None => []
    case Some(q) => [Tuple(q.key, q.value, t.id, t.eof)]
  }

  /** Another tuple with the same id and value, under the key of the column. */
  ghost predicate Rekeyed(t: Tuple, r: Tuple, column: int) {
    && r.id == t.id && r.value == t.value && r.eof == t.eof
    && (column <= 0 ==> r.key == t.key)
    && (1 <= column <= Columns(t.value) ==> r.key == Column(t.value, column, |t.value|))
    && (column > Columns(t.value) ==> r.key == "")
  }

  class GrepOp {
    const pattern: string -> bool
    const columnNum: int
    var matchCount: nat
    var filterCount: nat
    var eofForwarded: bool

    constructor (pattern: string -> bool, columnNum: int)
      ensures this.pattern == pattern && this.columnNum == columnNum
      ensures matchCount == 0 && filterCount == 0 && !eofForwarded
    {
      this.pattern := pattern;
      this.columnNum := columnNum;
      matchCount, filterCount, eofForwarded := 0, 0, false;
    }

    /** End markers are always passed on; a tuple is passed on under its new key, with its id, if it
        matches. */
    method Process(t: Tuple) returns (emitted: seq<Tuple>)
      modifies this
      ensures t.eof ==> emitted == [t] && eofForwarded && matchCount == old(matchCount) && filterCount == old(filterCount)
      ensures !t.eof ==>
        && emitted == Emitted(t, Grep(pattern, columnNum)(P.Payload(t.key, t.value)))
        && (emitted != [] <==> pattern(t.value))
        && (emitted != [] ==> |emitted| == 1 && Rekeyed(t, emitted[0], columnNum))
        && matchCount == old(matchCount) + |emitted| && filterCount == old(filterCount) + 1 - |emitted|
        && eofForwarded == old(eofForwarded)
    {
      if t.eof {
        if !eofForwarded {
          eofForwarded := true;
        }
        return [t];
      }
      KeyIsColumn(columnNum, t.key, t.value);
      if pattern(t.value) {
        matchCount := matchCount + 1;
        var newTuple := t;
        if columnNum > 0 {
          var fields := ParseCSVLine(t.value);
          if columnNum <= |fields| {
            newTuple := newTuple.(key := fields[columnNum - 1]);
          } else {
            newTuple := newTuple.(key := "");
          }
        }
        emitted := [newTuple];
      } else {
        filterCount := filterCount + 1;
        emitted := [];
      }
    }
  }

  // ---------- the counter ----------

  function CountTuple(k: string, c: nat): Tuple {
    Tuple(k, k + "," + Decimal(c), "count-" + k, false)
  }

  /** The text is the key, a comma and the digits of the count. */
  lemma CountTupleReads(k: string, c: nat)
    ensures var t := CountTuple(k, c);
      && t.key == k && !t.eof
      && |t.value| > |k| + 1 && t.value[..|k|] == k && t.value[|k|] == ',' && NumberOf(t.value[|k| + 1..]) == c
  {
    assert CountTuple(k, c).value[|k| + 1..] == Decimal(c);
    DecimalRoundTrip(c);
  }

  /** Counts of different keys have different ids and texts. */
  lemma CountTuplesDiffer(k: string, c: nat, l: string, d: nat)
    requires k != l
    ensures CountTuple(k, c).id != CountTuple(l, d).id
    ensures CountTuple(k, c).value != CountTuple(l, d).value
  {
    assert CountTuple(k, c).id[6..] == k && CountTuple(l, d).id[6..] == l;
    if CountTuple(k, c).value == CountTuple(l, d).value {
      assert k + "," + Decimal(c) == k + [','] + Decimal(c) && l + "," + Decimal(d) == l + [','] + Decimal(d);
      LastSeparatorIsUnique(k, Decimal(c), l, Decimal(d), ',');
    }
  }

  /** `out` lists the counts, each key once, in some order. */
  ghost predicate Lists(out: seq<Tuple>, counts: P.Counts) {
    && (forall i :: 0 <= i < |out| ==> out[i].key in counts && out[i] == CountTuple(out[i].key, counts[out[i].key]))
    && (forall i, j :: 0 <= i < j < |out| ==> out[i].key != out[j].key)
    && (forall k :: k in counts ==> ListedAt(out, k))
  }

  predicate ListedAt(out: seq<Tuple>, k: string) {
    exists i :: 0 <= i < |out| && out[i].key == k
  }

  class CountOp {
    var counts: P.Counts
    var tupleCount: nat
    var flushed: bool

    constructor ()
      ensures counts == map[] && tupleCount == 0 && !flushed
    {
      counts, tupleCount, flushed := map[], 0, false;
    }

    /** The first end marker makes all counts come out, before the marker; later ones are passed on
        alone; a tuple is counted under its key. */
    method Process(t: Tuple) returns (emitted: seq<Tuple>)
      modifies this
      ensures t.eof ==> counts == old(counts) && flushed && tupleCount == old(tupleCount)
      ensures t.eof && old(flushed) ==> emitted == [t]
      ensures t.eof && !old(flushed) ==>
        |emitted| == |counts| + 1 && emitted[|counts|] == t && Lists(emitted[..|counts|], counts)
      ensures !t.eof ==>
        && emitted == [] && counts == P.Increment(old(counts), t.key) && flushed == old(flushed)
        && tupleCount == if old(tupleCount) < 10 then old(tupleCount) + 1 else old(tupleCount)
    {
      if t.eof {
        var alreadyFlushed := flushed;
        if !flushed {
          flushed := true;
        }
        emitted := [];
        if !alreadyFlushed {
          emitted := FlushCounts();
          assert (emitted + [t])[..|counts|] == emitted;
        }
        emitted := emitted + [t];
        return;
      }
      if tupleCount < 10 {
        tupleCount := tupleCount + 1;
      }
      counts := counts[t.key := (if t.key in counts then counts[t.key] else 0) + 1];
      emitted := [];
    }

    method FlushCounts() returns (out: seq<Tuple>)
      ensures Lists(out, counts) && |out| == |counts|
    {
      out := [];
      var left := counts.Keys;
      while left != {}
        invariant left <= counts.Keys && |out| + |left| == |counts|
        invariant forall i :: 0 <= i < |out| ==>
          out[i].key in counts.Keys - left && out[i] == CountTuple(out[i].key, counts[out[i].key])
        invariant forall i, j :: 0 <= i < j < |out| ==> out[i].key != out[j].key
        invariant forall k :: k in counts.Keys - left ==> ListedAt(out, k)
        decreases |left|
      {
        var word :| word in left;
        ghost var before := out;
        out := out + [CountTuple(word, counts[word])];
        ListedAfter(before, CountTuple(word, counts[word]));
        left := left - {word};
      }
    }
  }

  lemma ListedAfter(out: seq<Tuple>, t: Tuple)
    ensures ListedAt(out + [t], t.key)
    ensures forall k :: ListedAt(out, k) ==> ListedAt(out + [t], k)
  {
    assert (out + [t])[|out|] == t;
    forall k | ListedAt(out, k) ensures ListedAt(out + [t], k) {
      var i :| 0 <= i < |out| && out[i].key == k;
      assert (out + [t])[i].key == k;
    }
  }
}
