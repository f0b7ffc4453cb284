/**
 Cyclic doubly linked lists over index links: q is the list in order from its head.
 */
module Ring {

  const NULL: int := -1

  ghost predicate Distinct(q: seq<int>) {
    forall i, j | 0 <= i < j < |q| :: q[i] != q[j]
  }

  function After(i: nat, n: nat): nat { if i + 1 == n then 0 else i + 1 }
  function Before(i: nat, n: nat): int { if i == 0 then n - 1 else i - 1 }

  function Head(q: seq<int>): int { if q == [] then NULL else q[0] }

  ghost predicate InRange(q: seq<int>, n: nat) {
    forall i | 0 <= i < |q| :: 0 <= q[i] < n
  }

  ghost predicate IsRing(q: seq<int>, next: seq<int>, prev: seq<int>) {
    && |next| == |prev| && InRange(q, |next|) && Distinct(q)
    && (forall i | 0 <= i < |q| :: next[q[i]] == q[After(i, |q|)])
    && (forall i | 0 <= i < |q| :: prev[q[i]] == q[Before(i, |q|)])
  }

  // The links after p is put in front of the head.
  function PushNext(q: seq<int>, next: seq<int>, p: int): seq<int>
    requires 0 <= p < |next| && forall i :: 0 <= i < |q| ==> 0 <= q[i] < |next|
  {
    if q == [] then next[p := p] else next[p := q[0]][q[|q| - 1] := p]
  }

  function PushPrev(q: seq<int>, prev: seq<int>, p: int): seq<int>
    requires 0 <= p < |prev| && forall i :: 0 <= i < |q| ==> 0 <= q[i] < |prev|
  {
    if q == [] then prev[p := p] else prev[p := q[|q| - 1]][q[0] := p]
  }

  // One member's links.
  lemma LinksAt(q: seq<int>, next: seq<int>, prev: seq<int>, i: int)
    requires IsRing(q, next, prev) && 0 <= i < |q|
    ensures 0 <= q[i] < |next| == |prev| && next[q[i]] == q[After(i, |q|)] && prev[q[i]] == q[Before(i, |q|)]
  {
  }

  lemma MembersDiffer(q: seq<int>, next: seq<int>, prev: seq<int>, i: int, j: int)
    requires IsRing(q, next, prev) && 0 <= i < |q| && 0 <= j < |q| && i != j
    ensures q[i] != q[j]
  {
    assert i < j ==> q[i] != q[j];
    assert j < i ==> q[j] != q[i];
  }

  // Links that fit member by member.
  lemma IsRingFrom(q: seq<int>, next: seq<int>, prev: seq<int>)
    requires |next| == |prev| && Distinct(q)
    requires forall i | 0 <= i < |q| :: LinkedAt(q, next, prev, i)
    ensures IsRing(q, next, prev)
  {
    forall i | 0 <= i < |q|
      ensures 0 <= q[i] < |next| && next[q[i]] == q[After(i, |q|)] && prev[q[i]] == q[Before(i, |q|)]
    {
      assert LinkedAt(q, next, prev, i);
    }
  }

  ghost predicate LinkedAt(q: seq<int>, next: seq<int>, prev: seq<int>, i: int)
    requires 0 <= i < |q|
  {
    0 <= q[i] < |next| && 0 <= q[i] < |prev| && next[q[i]] == q[After(i, |q|)] && prev[q[i]] == q[Before(i, |q|)]
  }

  lemma PushAt(q: seq<int>, next: seq<int>, prev: seq<int>, p: int, i: int)
    requires IsRing(q, next, prev) && InRange(q, |next|) && 0 <= p < |next| == |prev| && p !in q && 0 <= i <= |q|
    ensures LinkedAt([p] + q, PushNext(q, next, p), PushPrev(q, prev, p), i)
  {
    hide IsRing;
    var n := |q|;
    if n > 0 {
      assert q[0] in q && q[n - 1] in q;
      if i > 0 {
        PushMemberAt(q, next, prev, p, i - 1);
      }
    }
  }

  lemma PushMemberAt(q: seq<int>, next: seq<int>, prev: seq<int>, p: int, i: int)
    requires IsRing(q, next, prev) && InRange(q, |next|) && 0 <= p < |next| == |prev| && p !in q && 0 <= i < |q|
    ensures LinkedAt([p] + q, PushNext(q, next, p), PushPrev(q, prev, p), i + 1)
  {
    hide IsRing;
    var n, r := |q|, [p] + q;
    LinksAt(q, next, prev, i);
    assert r[i + 1] == q[i] && q[i] in q;
    if i > 0 {
      MembersDiffer(q, next, prev, i, 0);
    }
    if i < n - 1 {
      MembersDiffer(q, next, prev, i, n - 1);
    }
    hide InRange;
    assert PushNext(q, next, p)[q[i]] == if i == n - 1 then p else q[i + 1];
    assert PushPrev(q, prev, p)[q[i]] == if i == 0 then p else q[i - 1];
  }

  lemma PushKeeps(q: seq<int>, next: seq<int>, prev: seq<int>, p: int)
    requires IsRing(q, next, prev) && 0 <= p < |next| && p !in q
    ensures IsRing([p] + q, PushNext(q, next, p), PushPrev(q, prev, p))
  {
    assert InRange(q, |next|) && |next| == |prev|;
    PushDistinct(q, p);
    hide IsRing;
    var r, next', prev' := [p] + q, PushNext(q, next, p), PushPrev(q, prev, p);
    forall i | 0 <= i < |r| ensures LinkedAt(r, next', prev', i) {
      PushAt(q, next, prev, p, i);
    }
    hide LinkedAt;
    IsRingFrom(r, next', prev');
  }

  lemma PushDistinct(q: seq<int>, p: int)
    requires Distinct(q) && p !in q
    ensures Distinct([p] + q)
  {
    var r := [p] + q;
    forall i, j | 0 <= i < j < |r| ensures r[i] != r[j] {
      assert r[j] == q[j - 1] && q[j - 1] in q;
      assert i > 0 ==> r[i] == q[i - 1];
    }
  }

  // A list whose members keep their links is still one.
  lemma FrameKeeps(q: seq<int>, next: seq<int>, prev: seq<int>, next': seq<int>, prev': seq<int>)
    requires IsRing(q, next, prev) && |next'| == |next| && |prev'| == |prev|
    requires forall i | 0 <= i < |q| :: next'[q[i]] == next[q[i]] && prev'[q[i]] == prev[q[i]]
    ensures IsRing(q, next', prev')
  {
  }

  function Without(q: seq<int>, k: int): seq<int>
    requires 0 <= k < |q|
  {
    q[..k] + q[k + 1..]
  }

  // Unlinking the head.
  lemma UnlinkHeadAt(q: seq<int>, next: seq<int>, prev: seq<int>, i: int)
    requires IsRing(q, next, prev) && |q| > 1 && 0 <= i < |q| - 1
    requires InRange(q, |next|) && |next| == |prev|
    ensures LinkedAt(q[1..], next[q[|q| - 1] := q[1]], prev[q[1] := q[|q| - 1]], i)
  {
    hide IsRing;
    var n := |q|;
    var r := q[1..];
    LinksAt(q, next, prev, i + 1);
    assert r[i] == q[i + 1];
    if i + 1 != n - 1 {
      MembersDiffer(q, next, prev, i + 1, n - 1);
      assert r[i + 1] == q[i + 2];
    }
    if i + 1 != 1 {
      MembersDiffer(q, next, prev, i + 1, 1);
      assert r[i - 1] == q[i];
    }
    assert r[0] == q[1] && r[n - 2] == q[n - 1];
  }

  lemma UnlinkHead(q: seq<int>, next: seq<int>, prev: seq<int>)
    requires IsRing(q, next, prev) && q != []
    ensures var p := q[0];
      && 0 <= next[p] < |next| && 0 <= prev[p] < |prev| && next[p] in q && prev[p] in q
      && (next[p] == p <==> |q| == 1)
      && IsRing(q[1..], next[prev[p] := next[p]], prev[next[p] := prev[p]])
  {
    var n := |q|;
    assert InRange(q, |next|) && |next| == |prev| && Distinct(q);
    LinksAt(q, next, prev, 0);
    hide IsRing;
    assert q[n - 1] in q && q[After(0, n)] in q;
    if n > 1 {
      MembersDiffer(q, next, prev, 0, 1);
      var r, next', prev' := q[1..], next[q[n - 1] := q[1]], prev[q[1] := q[n - 1]];
      forall i | 0 <= i < |r| ensures LinkedAt(r, next', prev', i) {
        UnlinkHeadAt(q, next, prev, i);
      }
      hide LinkedAt;
      TailDistinct(q);
      IsRingFrom(r, next', prev');
    } else {
      IsRingFrom(q[1..], next[q[0] := q[0]], prev[q[0] := q[0]]);
    }
  }

  lemma TailDistinct(q: seq<int>)
    requires Distinct(q) && q != []
    ensures Distinct(q[1..])
  {
    forall i, j | 0 <= i < j < |q| - 1 ensures q[1..][i] != q[1..][j] {
      assert q[1..][i] == q[i + 1] && q[1..][j] == q[j + 1];
    }
  }

  function Rotated(q: seq<int>, k: int): seq<int>
    requires 0 <= k <= |q|
  {
    q[k..] + q[..k]
  }

  lemma RotatedOnce(q: seq<int>, k: nat)
    requires 0 < k <= |q|
    ensures var r := Rotated(q, k - 1); r != [] && Rotated(q, k) == r[1..] + [r[0]]
  {
  }

  lemma {:induction false} RotatedKeeps(q: seq<int>, next: seq<int>, prev: seq<int>, k: nat)
    requires IsRing(q, next, prev) && k <= |q|
    ensures IsRing(Rotated(q, k), next, prev)
    decreases k
  {
    hide IsRing;
    if k == 0 {
      assert Rotated(q, 0) == q;
    } else {
      RotatedKeeps(q, next, prev, k - 1);
      RotatedOnce(q, k);
      RotateKeeps(Rotated(q, k - 1), next, prev);
    }
  }

  lemma RotatedTail(q: seq<int>, k: nat)
    requires k < |q|
    ensures var r := Rotated(q, k); r != [] && r[0] == q[k] && |r| == |q| && Rotated(r[1..], |q| - 1 - k) == Without(q, k)
    ensures forall x :: x in Rotated(q, k) <==> x in q
  {
    assert q == q[..k] + q[k..];
  }

  // Unlinking member k, wherever it is.
  lemma UnlinkKeeps(q: seq<int>, next: seq<int>, prev: seq<int>, k: int)
    requires IsRing(q, next, prev) && 0 <= k < |q|
    ensures var p := q[k];
      && 0 <= p < |next| == |prev|
      && 0 <= next[p] < |next| && 0 <= prev[p] < |prev| && next[p] in q && prev[p] in q
      && (next[p] == p <==> |q| == 1)
      && IsRing(Without(q, k), next[prev[p] := next[p]], prev[next[p] := prev[p]])
  {
    hide IsRing;
    LinksAt(q, next, prev, k);
    var r := Rotated(q, k);
    RotatedKeeps(q, next, prev, k);
    RotatedTail(q, k);
    hide Rotated;
    hide Without;
    UnlinkHead(r, next, prev);
    RotatedKeeps(r[1..], next[prev[q[k]] := next[q[k]]], prev[next[q[k]] := prev[q[k]]], |q| - 1 - k);
  }

  lemma RotateKeeps(q: seq<int>, next: seq<int>, prev: seq<int>)
    requires IsRing(q, next, prev) && q != []
    ensures IsRing(q[1..] + [q[0]], next, prev) && next[q[0]] == Head(q[1..] + [q[0]])
  {
    var r := q[1..] + [q[0]];
    assert |next| == |prev|;
    RotateDistinct(q);
    LinksAt(q, next, prev, 0);
    hide IsRing;
    forall i | 0 <= i < |r| ensures LinkedAt(r, next, prev, i) {
      var j := After(i, |q|);
      assert r[i] == q[j];
      LinksAt(q, next, prev, j);
      assert r[After(i, |r|)] == q[After(j, |q|)] && r[Before(i, |r|)] == q[Before(j, |q|)];
    }
    hide LinkedAt;
    IsRingFrom(r, next, prev);
  }

  lemma RotateDistinct(q: seq<int>)
    requires Distinct(q) && q != []
    ensures Distinct(q[1..] + [q[0]])
  {
    var r := q[1..] + [q[0]];
    forall i, j | 0 <= i < j < |r| ensures r[i] != r[j] {
      assert r[i] == q[i + 1];
      assert r[j] == q[After(j, |q|)];
    }
  }
}
