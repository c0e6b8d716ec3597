/** How soon the round robin reaches every member (section 4.3 of the SWIM paper by Das, Gupta and
    Motivala, 2002). */
module RoundRobin {
  import opened MembershipList

  /** The list and the index between two turns. */
  datatype Ring = Ring(members: seq<nat>, index: nat)

  ghost predicate Next(a: Ring, out: nat, b: Ring) {
    Turn(a.members, a.index, out, b.members, b.index)
  }

  /** `outs` are the targets of consecutive turns through `rings`, with any permutations at the ends
      of cycles. */
  ghost predicate Trace(rings: seq<Ring>, outs: seq<nat>) {
    |rings| == |outs| + 1 && forall k :: 0 <= k < |outs| ==> Next(rings[k], outs[k], rings[k + 1])
  }

  /** Until the end of the list the targets are the rest of the list, in order. */
  lemma {:induction false} StraightOn(rings: seq<Ring>, outs: seq<nat>, k: nat)
    requires Trace(rings, outs) && k <= |outs| && rings[0].index + k <= |rings[0].members|
    requires rings[0].index < |rings[0].members|
    ensures forall j :: 0 <= j < k ==> outs[j] == rings[0].members[rings[0].index + j]
    ensures rings[0].index + k < |rings[0].members| ==> rings[k] == Ring(rings[0].members, rings[0].index + k)
    ensures rings[0].index + k == |rings[0].members| ==>
      rings[k].index == 0 && SameElements(rings[k].members, rings[0].members)
  {
    if k == 0 {
    } else {
      StraightOn(rings, outs, k - 1);
      assert Next(rings[k - 1], outs[k - 1], rings[k]);
    }
  }

  /** A full cycle from the start of the list returns every member exactly once. */
  lemma FullCycle(rings: seq<Ring>, outs: seq<nat>)
    requires Trace(rings, outs) && |rings[0].members| > 0 && rings[0].index == 0
    requires |outs| == |rings[0].members|
    ensures outs == rings[0].members
    ensures rings[|outs|].index == 0 && SameElements(rings[|outs|].members, outs)
  {
    StraightOn(rings, outs, |outs|);
  }

  /** Any 2n - 1 consecutive turns reach every one of the n members, wherever they start. */
  lemma EveryoneWithin(rings: seq<Ring>, outs: seq<nat>, x: nat)
    requires Trace(rings, outs) && rings[0].index < |rings[0].members| && x in rings[0].members
    requires |outs| == 2 * |rings[0].members| - 1
    ensures x in outs
  {
    var n := |rings[0].members|;
    var i := rings[0].index;
    var first := if i == 0 then 0 else n - i;
    if i > 0 {
      StraightOn(rings, outs, n - i);
      assert |multiset(rings[n - i].members)| == n;
      assert x in multiset(rings[0].members);
    }
    var rest := rings[first..first + n + 1];
    assert rest[0] == rings[first] && x in multiset(rest[0].members);
    assert Trace(rest, outs[first..first + n]);
    FullCycle(rest, outs[first..first + n]);
  }

  /** The bound is sharp: with 2n - 2 turns a member can be missed, for every n above 1. */
  lemma BoundIsSharp(n: nat)
    requires n > 1
    ensures exists rings, outs, x :: Missed(n, rings, outs, x)
  {
    var s := seq(n, i requires 0 <= i < n => i);
    var t := s[1..] + [s[0]];
    SharpTrace(n, s, t);
  }

  ghost predicate Missed(n: nat, rings: seq<Ring>, outs: seq<nat>, x: nat) {
    Trace(rings, outs) && |rings[0].members| == n && Distinct(rings[0].members) && rings[0].index < n
    && x in rings[0].members && |outs| == 2 * n - 2 && x !in outs
  }

  /** Start just past the first member; after the cycle it is moved to the end. */
  function SharpRings(n: nat, s: seq<nat>, t: seq<nat>): (r: seq<Ring>)
    requires n > 1
    ensures |r| == 2 * n - 1
    ensures forall k :: 0 <= k < |r| ==> r[k] == if k < n - 1 then Ring(s, k + 1) else Ring(t, k - (n - 1))
  {
    seq(2 * n - 1, k requires 0 <= k < 2 * n - 1 => if k < n - 1 then Ring(s, k + 1) else Ring(t, k - (n - 1)))
  }

  lemma SharpNext(n: nat, s: seq<nat>, t: seq<nat>, k: nat)
    requires n > 1 && |s| == n && t == s[1..] + [s[0]] && k < 2 * n - 2
    ensures Next(SharpRings(n, s, t)[k], (s[1..] + s[1..])[k], SharpRings(n, s, t)[k + 1])
  {
    if k == n - 2 {
      assert s == [s[0]] + s[1..];
    }
  }

  lemma SharpTrace(n: nat, s: seq<nat>, t: seq<nat>)
    requires n > 1 && |s| == n && Distinct(s) && t == s[1..] + [s[0]]
    ensures exists rings, outs, x :: Missed(n, rings, outs, x)
  {
    var rings := SharpRings(n, s, t);
    var outs := s[1..] + s[1..];
    forall k | 0 <= k < |outs| ensures Next(rings[k], outs[k], rings[k + 1]) {
      SharpNext(n, s, t, k);
    }
    SharpMisses(n, s);
    assert Missed(n, rings, outs, s[0]);
  }

  lemma SharpMisses(n: nat, s: seq<nat>)
    requires n > 1 && |s| == n && Distinct(s)
    ensures s[0] !in s[1..] + s[1..]
  {}
}
