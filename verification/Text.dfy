/** Text helpers shared by the other modules: decimal rendering as `%d` prints it, the
    byte-wise string order, and line splitting, joining and trimming. */
module Text {

  // ---------- decimal numbers ----------

  function Digit(d: nat): (c: char)
    requires d < 10
    ensures '0' <= c <= '9'
  {
    ('0' as int + d) as char
  }

  /** The text `%d` prints for a non-negative integer. */
  function Decimal(n: nat): (s: string)
    ensures |s| > 0
    ensures forall i :: 0 <= i < |s| ==> '0' <= s[i] <= '9'
  {
    if n < 10 then [Digit(n)] else Decimal(n / 10) + [Digit(n % 10)]
  }

  function NumberOf(s: string): int {
    if s == [] then 0 else NumberOf(s[..|s| - 1]) * 10 + (s[|s| - 1] as int - '0' as int)
  }

  lemma {:induction false} DecimalRoundTrip(n: nat)
    ensures NumberOf(Decimal(n)) == n
  {
    if n >= 10 {
      DecimalRoundTrip(n / 10);
      var s := Decimal(n);
      assert s[..|s| - 1] == Decimal(n / 10);
    } else {
      var s := Decimal(n);
      assert s[..0] == [];
      assert NumberOf(s[..0]) == 0;
    }
  }

  lemma DecimalInjective(m: nat, n: nat)
    requires Decimal(m) == Decimal(n)
    ensures m == n
  {
    DecimalRoundTrip(m);
    DecimalRoundTrip(n);
  }

  /** A separator that does not occur after its last position splits a string uniquely, even
      when the text in front of it contains the separator again. */
  lemma LastSeparatorIsUnique(a: string, p: string, b: string, q: string, sep: char)
    requires a + [sep] + p == b + [sep] + q
    requires sep !in p && sep !in q
    ensures a == b && p == q
  {
    var s := a + [sep] + p;
    assert s[|a|] == sep && s[|b|] == sep;
    assert forall i :: |a| < i < |s| ==> s[i] == p[i - |a| - 1];
    assert forall i :: |b| < i < |s| ==> s[i] == q[i - |b| - 1];
    assert |a| == |b|;
    assert a == s[..|a|] && b == s[..|a|];
    assert p == s[|a| + 1..] && q == s[|a| + 1..];
  }

  // ---------- the order of strings ----------

  /** `a < b` as strings compare: first differing character decides, a proper prefix is smaller. */
  predicate Less(a: string, b: string) {
    |b| > 0 && (|a| == 0 || a[0] < b[0] || (a[0] == b[0] && Less(a[1..], b[1..])))
  }

  lemma {:induction false} LessIrreflexive(a: string)
    ensures !Less(a, a)
  {
    if |a| == 0 {
    } else {
      LessIrreflexive(a[1..]);
    }
  }

  lemma {:induction false} LessTransitive(a: string, b: string, c: string)
    requires Less(a, b) && Less(b, c)
    ensures Less(a, c)
  {
    if |a| == 0 || a[0] != b[0] || b[0] != c[0] {
    } else {
      LessTransitive(a[1..], b[1..], c[1..]);
    }
  }

  lemma {:induction false} LessTotal(a: string, b: string)
    ensures Less(a, b) || a == b || Less(b, a)
  {
    if |a| == 0 || |b| == 0 || a[0] != b[0] {
    } else {
      LessTotal(a[1..], b[1..]);
      if a[1..] == b[1..] {
        assert a == [a[0]] + a[1..];
        assert b == [b[0]] + b[1..];
      }
    }
  }

  lemma LessAsymmetric(a: string, b: string)
    requires Less(a, b)
    ensures !Less(b, a) && a != b
  {
    LessIrreflexive(a);
    if Less(b, a) { LessTransitive(a, b, a); }
  }

  /** The strings agree in the first `k` characters, and then `a` ends or has the smaller one. */
  predicate SmallerAt(a: string, b: string, k: nat) {
    && k <= |a| && k < |b| && a[..k] == b[..k]
    && (k == |a| || a[k] < b[k])
  }

  lemma {:induction false} LessIs(a: string, b: string)
    ensures Less(a, b) <==> exists k: nat :: SmallerAt(a, b, k)
  {
    if |a| == 0 || |b| == 0 || a[0] != b[0] {
      assert |b| > 0 && |a| > 0 && a[0] != b[0] ==> forall k: nat :: SmallerAt(a, b, k) ==> a[..k] == b[..k] && k == 0;
      assert |b| > 0 && (|a| == 0 || a[0] < b[0]) ==> SmallerAt(a, b, 0);
    } else {
      LessIs(a[1..], b[1..]);
      if Less(a, b) {
        var k: nat :| SmallerAt(a[1..], b[1..], k);
        SmallerShift(a, b, k);
      }
      if k: nat :| SmallerAt(a, b, k) {
        SmallerShift(a, b, k - 1);
      }
    }
  }

  lemma SmallerShift(a: string, b: string, k: nat)
    requires |a| > 0 && |b| > 0 && a[0] == b[0]
    ensures SmallerAt(a, b, k + 1) <==> SmallerAt(a[1..], b[1..], k)
  {
    if k < |a| && k < |b| {
      assert a[..k + 1] == [a[0]] + a[1..][..k] && b[..k + 1] == [b[0]] + b[1..][..k];
      assert a[1..][..k] == a[..k + 1][1..] && b[1..][..k] == b[..k + 1][1..];
    }
  }

  // ---------- lines ----------

  /** `strings.Split(s, "\n")`: always at least one piece. */
  function SplitLines(s: string): (r: seq<string>)
    ensures |r| >= 1
  {
    if s == [] then [""]
    else
      var rest := SplitLines(s[1..]);
      if s[0] == '\n' then [""] + rest
      else [[s[0]] + rest[0]] + rest[1..]
  }

  /** `strings.Join(lines, "\n")`. */
  function JoinLines(lines: seq<string>): string {
    if lines == [] then ""
    else if |lines| == 1 then lines[0]
    else lines[0] + "\n" + JoinLines(lines[1..])
  }

  predicate IsSpace(c: char) {
    c == ' ' || c == '\t' || c == '\n' || c == '\r' || c as int == 11 || c as int == 12
    || c as int == 0x85 || c as int == 0xA0
  }

  lemma SpaceIs(c: char)
    ensures IsSpace(c) <==> c as int in {9, 10, 11, 12, 13, 32, 0x85, 0xA0}
  {}

  function TrimLeft(s: string): string {
    if s != [] && IsSpace(s[0]) then TrimLeft(s[1..]) else s
  }

  function TrimRight(s: string): string {
    if s != [] && IsSpace(s[|s| - 1]) then TrimRight(s[..|s| - 1]) else s
  }

  /** `strings.TrimSpace` on the Latin-1 white space characters. */
  function TrimSpace(s: string): string {
    TrimRight(TrimLeft(s))
  }

  predicate AllSpace(s: string) {
    forall i :: 0 <= i < |s| ==> IsSpace(s[i])
  }

  /** `s[from..to]` is what is left between the white space at both ends. */
  predicate IsTrimmed(s: string, from: nat, to: nat) {
    && from <= to <= |s| && AllSpace(s[..from]) && AllSpace(s[to..])
    && (from < to ==> !IsSpace(s[from]) && !IsSpace(s[to - 1]))
  }

  lemma {:induction false} TrimLeftIs(s: string) returns (from: nat)
    ensures from <= |s| && TrimLeft(s) == s[from..] && AllSpace(s[..from]) && (from < |s| ==> !IsSpace(s[from]))
  {
    if s == [] || !IsSpace(s[0]) {
      from := 0;
    } else {
      var rest := TrimLeftIs(s[1..]);
      from := rest + 1;
      assert s[..from] == [s[0]] + s[1..][..rest];
    }
  }

  lemma {:induction false} TrimRightIs(s: string) returns (to: nat)
    ensures to <= |s| && TrimRight(s) == s[..to] && AllSpace(s[to..]) && (to > 0 ==> !IsSpace(s[to - 1]))
  {
    if s == [] || !IsSpace(s[|s| - 1]) {
      to := |s|;
    } else {
      to := TrimRightIs(s[..|s| - 1]);
      assert s[to..] == s[..|s| - 1][to..] + [s[|s| - 1]];
    }
  }

  /** Trimming takes the white space off both ends, all of it, and nothing else. */
  lemma TrimSpaceIs(s: string)
    ensures exists from: nat, to: nat :: IsTrimmed(s, from, to) && TrimSpace(s) == s[from..to]
  {
    var from := TrimLeftIs(s);
    var t := s[from..];
    var k := TrimRightIs(t);
    assert s[from + k..] == t[k..];
    assert k > 0 ==> t[0] == s[from] && t[k - 1] == s[from + k - 1];
    assert IsTrimmed(s, from, from + k) && t[..k] == s[from..from + k];
  }

  lemma JoinAfterEmpty(rest: seq<string>)
    requires rest != []
    ensures JoinLines([""] + rest) == "\n" + JoinLines(rest)
  {
    assert ([""] + rest)[1..] == rest;
  }

  lemma JoinLongerFirst(c: char, rest: seq<string>)
    requires rest != []
    ensures JoinLines([[c] + rest[0]] + rest[1..]) == [c] + JoinLines(rest)
  {
    var longer := [[c] + rest[0]] + rest[1..];
    assert longer[1..] == rest[1..];
    if |rest| == 1 {
      assert longer == [[c] + rest[0]];
    } else {
      assert [c] + (rest[0] + "\n" + JoinLines(rest[1..])) == [c] + rest[0] + "\n" + JoinLines(rest[1..]);
    }
  }

  /** Splitting undoes joining and leaves no newline in any line. */
  lemma {:induction false} SplitLinesIs(s: string)
    ensures JoinLines(SplitLines(s)) == s
    ensures forall i :: 0 <= i < |SplitLines(s)| ==> '\n' !in SplitLines(s)[i]
  {
    if s == [] {
    } else {
      var rest := SplitLines(s[1..]);
      SplitLinesIs(s[1..]);
      JoinAfterEmpty(rest);
      JoinLongerFirst(s[0], rest);
      assert s == [s[0]] + s[1..];
    }
  }

  /** A string that ends in a newline splits off from whatever follows it. */
  lemma {:induction false} SplitAfterNewline(a: string, b: string)
    ensures SplitLines(a + "\n" + b) == SplitLines(a) + SplitLines(b)
  {
    var s := a + "\n" + b;
    if a == [] {
      assert s[0] == '\n' && s[1..] == b;
    } else {
      assert s[0] == a[0];
      assert s[1..] == a[1..] + "\n" + b;
      SplitAfterNewline(a[1..], b);
    }
  }

  lemma {:induction false} SplitWithoutNewline(a: string)
    requires '\n' !in a
    ensures SplitLines(a) == [a]
  {
    if a == [] {
    } else {
      assert a[0] in a;
      assert forall c :: c in a[1..] ==> c in a;
      SplitWithoutNewline(a[1..]);
      assert [a[0]] + a[1..] == a;
    }
  }
}
