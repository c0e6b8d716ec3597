/** Where a node keeps a file: in a directory named like the file without its extension. Paths are
    taken as written; names that cleaning a path would change are not part of this model. */
module FileNames {

  /** Index of the dot that starts the extension of `s[..n]`, or -1. */
  function LastDot(s: string, n: nat): (d: int)
    requires n <= |s|
    ensures -1 <= d < n
    ensures d >= 0 ==> s[d] == '.' && forall i :: d < i < n ==> s[i] != '.' && s[i] != '/'
  {
    if n == 0 || s[n - 1] == '/' then -1
    else if s[n - 1] == '.' then n - 1
    else LastDot(s, n - 1)
  }

  /** The directory of a file: its name without the extension. */
  function DirOf(name: string): string {
    var d := LastDot(name, |name|);
    if d >= 0 then name[..d] else name
  }

  predicate Plain(s: string) {
    '.' !in s && '/' !in s
  }

  /** The name is the stem followed by an extension, or the stem itself if that has no extension. */
  predicate HasStem(name: string, stem: string) {
    (name == stem && LastDot(stem, |stem|) < 0)
    || (|stem| < |name| && name[..|stem|] == stem && name[|stem|] == '.' && Plain(name[|stem| + 1..]))
  }

  lemma {:induction false} LastDotIs(s: string, n: nat, d: nat)
    requires d < n <= |s| && s[d] == '.' && forall i :: d < i < n ==> s[i] != '.' && s[i] != '/'
    ensures LastDot(s, n) == d
  {
    if n == d + 1 {
    } else {
      LastDotIs(s, n - 1, d);
    }
  }

  lemma DirHasStem(name: string)
    ensures HasStem(name, DirOf(name))
  {
    var d := LastDot(name, |name|);
    if d >= 0 {
      assert Plain(name[d + 1..]);
    }
  }

  lemma StemIsDir(name: string, stem: string)
    requires |stem| < |name| && name[..|stem|] == stem && name[|stem|] == '.' && Plain(name[|stem| + 1..])
    ensures DirOf(name) == stem
  {
    forall i | |stem| < i < |name| ensures name[i] != '.' && name[i] != '/' {
      assert name[i] == name[|stem| + 1..][i - |stem| - 1];
    }
    LastDotIs(name, |name|, |stem|);
  }

  lemma DirIsStem(name: string, stem: string)
    ensures DirOf(name) == stem <==> HasStem(name, stem)
  {
    DirHasStem(name);
    if HasStem(name, stem) && name != stem {
      StemIsDir(name, stem);
    }
  }

  /** Two names meet in one directory exactly if they differ in their extensions at most. */
  lemma NamesMeetIff(a: string, b: string)
    ensures DirOf(a) == DirOf(b) <==> HasStem(b, DirOf(a))
  {
    DirIsStem(b, DirOf(a));
  }

  // ---------- directories ----------

  /** `k` is the directory `d` or lies below it; everything lies below the root. */
  predicate Below(k: string, d: string) {
    d == "" || k == d || d + "/" <= k
  }

  /** The names on a path, from the root. */
  function Components(path: string): (r: seq<string>)
    ensures |r| >= 1
  {
    if path == "" then [""]
    else
      var rest := Components(path[1..]);
      if path[0] == '/' then [""] + rest else [[path[0]] + rest[0]] + rest[1..]
  }

  lemma {:induction false} ComponentsAppend(a: string, b: string)
    ensures Components(a + "/" + b) == Components(a) + Components(b)
  {
    var s := a + "/" + b;
    if a == "" {
      assert s[0] == '/' && s[1..] == b;
    } else {
      assert s[0] == a[0] && s[1..] == a[1..] + "/" + b;
      ComponentsAppend(a[1..], b);
    }
  }

  /** The path through these names. */
  function Path(names: seq<string>): string {
    if names == [] then "" else if |names| == 1 then names[0] else names[0] + "/" + Path(names[1..])
  }

  lemma {:induction false} PathOfComponents(path: string)
    ensures Path(Components(path)) == path
  {
    if path == "" {
    } else {
      var rest := Components(path[1..]);
      PathOfComponents(path[1..]);
      if path[0] == '/' {
        assert ([""] + rest)[1..] == rest;
      } else {
        assert ([[path[0]] + rest[0]] + rest[1..])[1..] == rest[1..];
      }
      assert path == [path[0]] + path[1..];
    }
  }

  lemma {:induction false} PathAppend(a: seq<string>, b: seq<string>)
    requires a != [] && b != []
    ensures Path(a + b) == Path(a) + "/" + Path(b)
  {
    if |a| == 1 {
      assert (a + b)[1..] == b;
    } else {
      assert (a + b)[1..] == a[1..] + b;
      PathAppend(a[1..], b);
    }
  }

  lemma BelowGoesThrough(k: string, d: string)
    requires k == d || d + "/" <= k
    ensures Components(d) <= Components(k)
  {
    if d + "/" <= k {
      ComponentsAppend(d, k[|d| + 1..]);
      assert k == d + "/" + k[|d| + 1..];
    }
  }

  lemma ThroughIsBelow(k: string, d: string)
    requires Components(d) <= Components(k)
    ensures k == d || d + "/" <= k
  {
    var rest := Components(k)[|Components(d)|..];
    assert Components(k) == Components(d) + rest;
    PathOfComponents(d);
    PathOfComponents(k);
    if rest == [] {
      assert Components(k) == Components(d);
    } else {
      PathAppend(Components(d), rest);
      assert k == d + "/" + Path(rest);
    }
  }

  /** A directory lies below another exactly if its path goes through it. */
  lemma BelowIffThrough(k: string, d: string)
    requires d != ""
    ensures Below(k, d) <==> Components(d) <= Components(k)
  {
    if Below(k, d) {
      BelowGoesThrough(k, d);
    }
    if Components(d) <= Components(k) {
      ThroughIsBelow(k, d);
    }
  }

  /** There is a directory `d`: the root, one of the files', or one on the way to them. */
  predicate Occupied<T>(dirs: map<string, T>, d: string) {
    d == "" || exists k :: k in dirs && Below(k, d)
  }

  /** What is left when the directory `d` is removed with all that lies below it. */
  function Removed<T>(dirs: map<string, T>, d: string): map<string, T> {
    map k | k in dirs && !Below(k, d) :: dirs[k]
  }

  lemma NestedHasSlash(k: string, d: string)
    ensures d + "/" <= k ==> '/' in k
  {
    if d + "/" <= k {
      assert k[|d|] == '/';
    }
  }

  /** A directory is there exactly if a file's path goes through it. */
  lemma OccupiedIs<T>(dirs: map<string, T>, d: string)
    requires d != ""
    ensures Occupied(dirs, d) <==> exists k :: k in dirs && Components(d) <= Components(k)
  {
    forall k ensures Below(k, d) <==> Components(d) <= Components(k) {
      BelowIffThrough(k, d);
    }
  }

  /** Exactly the files whose paths go through a directory go with it. */
  lemma RemovedIs<T>(dirs: map<string, T>, d: string, k: string)
    requires d != ""
    ensures k in Removed(dirs, d) <==> k in dirs && !(Components(d) <= Components(k))
    ensures k in Removed(dirs, d) ==> Removed(dirs, d)[k] == dirs[k]
  {
    BelowIffThrough(k, d);
  }

  /** A name with an empty stem stands for the root: it can never be created, and its removal takes
      everything. */
  lemma RootTakesAll<T>(dirs: map<string, T>)
    ensures Occupied(dirs, "") && Removed(dirs, "") == map[]
  {}

  lemma RemovedIsFree<T>(dirs: map<string, T>, d: string)
    ensures Occupied(Removed(dirs, d), d) <==> d == ""
  {}

  /** An update of the directory itself does not show after its removal. */
  lemma RemovedAfterUpdate<T>(dirs: map<string, T>, d: string, f: T)
    ensures Removed(dirs[d := f], d) == Removed(dirs, d)
  {}
}
