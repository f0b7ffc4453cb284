/**
 The links of run queues and sibling rings, and the sequences they stand for.
 */
module KernelRings {
  import opened Sampling
  import opened ProcModel
  import opened ProcInvariants
  import opened ProcQueues
  import opened Ring

  // ---------- run queues ----------

  // Links, heads (prio_proc), lengths (prio_proc_n) and their sum (n_runnable_procs).
  datatype QueueLinks = QueueLinks(next: seq<int>, prev: seq<int>, head: seq<int>, count: seq<nat>, total: int)

  ghost predicate QueuesLinked(m: Sys, k: QueueLinks)
    requires Shaped(m)
  {
    && |k.next| == MAX_PROC && |k.prev| == MAX_PROC && |k.head| == MAX_PRIO + 1 && |k.count| == MAX_PRIO + 1
    && (forall prio | 0 <= prio <= MAX_PRIO :: IsRing(m.queues[prio], k.next, k.prev))
    && (forall prio | 0 <= prio <= MAX_PRIO :: k.head[prio] == Head(m.queues[prio]))
    && (forall prio | 0 <= prio <= MAX_PRIO :: k.count[prio] == |m.queues[prio]|)
    && k.total == Sum(k.count)
  }

  lemma {:induction false} SumUpdate(law: seq<nat>, i: nat, x: nat, n: nat)
    requires i < |law| && n <= |law|
    ensures Sum(law[i := x][..n]) == Sum(law[..n]) + if i < n then x - law[i] else 0
  {
    if n > 0 {
      SumUpdate(law, i, x, n - 1);
      PrefixSum(law, n - 1);
      PrefixSum(law[i := x], n - 1);
    }
  }

  lemma {:induction false} RemoveIsWithout(q: seq<int>, k: nat)
    requires Distinct(q) && k < |q|
    ensures Remove(q, q[k]) == Without(q, k)
  {
    if k > 0 {
      assert q[0] != q[k];
      assert q[1..][k - 1] == q[k];
      assert forall i | 0 <= i < |q| - 1 :: q[1..][i] == q[i + 1];
      RemoveIsWithout(q[1..], k - 1);
      assert Without(q, k) == [q[0]] + Without(q[1..], k - 1);
    } else {
      assert Without(q, 0) == q[1..];
    }
  }

  // change_state when a process leaves the queue it is in.
  function Leave(k: QueueLinks, p: int, prio: int): QueueLinks
    requires 0 <= p < |k.next| == |k.prev| && 0 <= prio < |k.head| == |k.count| && k.count[prio] > 0
    requires 0 <= k.next[p] < |k.prev| && 0 <= k.prev[p] < |k.next|
  {
    var n, b := k.next[p], k.prev[p];
    QueueLinks(k.next[b := n], k.prev[n := b],
               if k.head[prio] == p then k.head[prio := if n == p then NULL else n] else k.head,
               k.count[prio := k.count[prio] - 1], k.total - 1)
  }

  // change_state when a process joins the queue of its priority, in front.
  function Join(k: QueueLinks, p: int, prio: int): QueueLinks
    requires 0 <= p < |k.next| == |k.prev| && 0 <= prio < |k.head| == |k.count|
    requires k.head[prio] == NULL || (0 <= k.head[prio] < |k.prev| && 0 <= k.prev[k.head[prio]] < |k.next|)
  {
    var h := k.head[prio];
    if h == NULL then
      QueueLinks(k.next[p := p], k.prev[p := p], k.head[prio := p], k.count[prio := k.count[prio] + 1], k.total + 1)
    else
      QueueLinks(k.next[p := h][k.prev[h] := p], k.prev[p := k.prev[h]][h := p],
                 k.head[prio := p], k.count[prio := k.count[prio] + 1], k.total + 1)
  }

  lemma OtherQueue(m: Sys, prio: int, other: int, x: int)
    requires Shaped(m) && Queues(m) && 0 <= prio <= MAX_PRIO && 0 <= other <= MAX_PRIO && prio != other
    requires x in m.queues[prio]
    ensures x !in m.queues[other]
  {
    assert Queued(m, prio, x);
    assert x in m.queues[other] <==> Queued(m, other, x);
  }

  // One ring with the member p unlinked, and its new head.
  lemma UnlinkMember(q: seq<int>, next: seq<int>, prev: seq<int>, p: int)
    requires IsRing(q, next, prev) && p in q
    ensures 0 <= p < |next| == |prev| && 0 <= next[p] < |next| && 0 <= prev[p] < |next| && next[p] in q && prev[p] in q
    ensures IsRing(Remove(q, p), next[prev[p] := next[p]], prev[next[p] := prev[p]])
    ensures Head(Remove(q, p)) == if q[0] == p then (if next[p] == p then NULL else next[p]) else q[0]
    ensures |Remove(q, p)| == |q| - 1
  {
    var i :| 0 <= i < |q| && q[i] == p;
    UnlinkKeeps(q, next, prev, i);
    RemoveIsWithout(q, i);
    assert i == 0 && |q| > 1 ==> next[p] == q[1] && Without(q, 0)[0] == q[1];
    assert i > 0 ==> Without(q, i)[0] == q[0] != q[i];
  }

  // Rings that share no member with the links changed are kept.
  lemma Untouched(q: seq<int>, next: seq<int>, prev: seq<int>, next': seq<int>, prev': seq<int>)
    requires IsRing(q, next, prev) && |next'| == |next| && |prev'| == |prev|
    requires forall x | 0 <= x < |next| && x in q :: next'[x] == next[x] && prev'[x] == prev[x]
    ensures IsRing(q, next', prev')
  {
    assert forall j | 0 <= j < |q| :: q[j] in q;
    FrameKeeps(q, next, prev, next', prev');
  }

  lemma CountUpdate(k: QueueLinks, prio: int, n: nat)
    requires 0 <= prio < |k.count|
    ensures Sum(k.count[prio := n]) == Sum(k.count) + n - k.count[prio]
  {
    SumUpdate(k.count, prio, n, |k.count|);
    assert k.count[..|k.count|] == k.count && k.count[prio := n][..|k.count|] == k.count[prio := n];
  }

  lemma PushMember(q: seq<int>, next: seq<int>, prev: seq<int>, p: int)
    requires IsRing(q, next, prev) && 0 <= p < |next| && p !in q
    ensures q != [] ==> 0 <= q[0] < |next| == |prev| && prev[q[0]] == q[|q| - 1] && 0 <= q[|q| - 1] < |next|
    ensures q == [] ==> |next| == |prev| && IsRing([p], next[p := p], prev[p := p])
    ensures q != [] ==> IsRing([p] + q, next[p := q[0]][prev[q[0]] := p], prev[p := prev[q[0]]][q[0] := p])
  {
    PushKeeps(q, next, prev, p);
    assert q == [] ==> [p] + q == [p];
  }

  // The queues after a change at one priority.
  lemma LinkedFrom(m: Sys, k: QueueLinks, r: Sys, k': QueueLinks, prio: int, q: seq<int>)
    requires Shaped(m) && QueuesLinked(m, k) && Shaped(r) && 0 <= prio <= MAX_PRIO && r.queues == m.queues[prio := q]
    requires |k'.next| == MAX_PROC && |k'.prev| == MAX_PROC && |k'.head| == MAX_PRIO + 1
    requires IsRing(q, k'.next, k'.prev) && k'.head[prio] == Head(q) && k'.count == k.count[prio := |q|]
    requires forall o | 0 <= o <= MAX_PRIO && o != prio :: IsRing(m.queues[o], k'.next, k'.prev) && k'.head[o] == k.head[o]
    requires k'.total == k.total + |q| - k.count[prio]
    ensures QueuesLinked(r, k')
  {
    hide IsRing;
    CountUpdate(k, prio, |q|);
  }

  lemma LeaveKeeps(m: Sys, k: QueueLinks, p: int, st: ProcState)
    requires Shaped(m) && Queues(m) && QueuesLinked(m, k) && Pid(p) && m.procs[p].state == Runnable && st != Runnable
    ensures var prio := m.procs[p].prio;
      && k.count[prio] > 0 && 0 <= k.next[p] < MAX_PROC && 0 <= k.prev[p] < MAX_PROC
      && QueuesLinked(ChangeState(m, p, st), Leave(k, p, prio))
  {
    hide IsRing;
    var prio := m.procs[p].prio;
    var q := m.queues[prio];
    assert p in q by { assert Queued(m, prio, p); }
    UnlinkMember(q, k.next, k.prev, p);
    LeavesQueue(m, p, st);
    hide ChangeState;
    hide Remove;
    var k' := Leave(k, p, prio);
    forall o | 0 <= o <= MAX_PRIO && o != prio ensures IsRing(m.queues[o], k'.next, k'.prev) && k'.head[o] == k.head[o] {
      OtherQueue(m, prio, o, k.next[p]);
      OtherQueue(m, prio, o, k.prev[p]);
      Untouched(m.queues[o], k.next, k.prev, k'.next, k'.prev);
    }
    hide Queues;
    LinkedFrom(m, k, ChangeState(m, p, st), k', prio, Remove(q, p));
  }

  // The members of the other queues keep their links when p joins q in front.
  lemma JoinOther(m: Sys, k: QueueLinks, p: int, o: int)
    requires Shaped(m) && Queues(m) && QueuesLinked(m, k) && Pid(p) && m.procs[p].state != Runnable
    requires 0 <= o <= MAX_PRIO && o != m.procs[p].prio
    requires var h := k.head[m.procs[p].prio]; h == NULL || (0 <= h < |k.prev| && 0 <= k.prev[h] < |k.next|)
    requires var q := m.queues[m.procs[p].prio]; q != [] ==> k.prev[q[0]] == q[|q| - 1]
    ensures var k' := Join(k, p, m.procs[p].prio); IsRing(m.queues[o], k'.next, k'.prev)
  {
    hide IsRing;
    var prio := m.procs[p].prio;
    var q := m.queues[prio];
    assert p !in m.queues[o] by { assert !Queued(m, o, p); }
    if q != [] {
      OtherQueue(m, prio, o, q[0]);
      OtherQueue(m, prio, o, q[|q| - 1]);
    }
    assert k.head[prio] == Head(q);
    hide Queues;
    var k' := Join(k, p, prio);
    Untouched(m.queues[o], k.next, k.prev, k'.next, k'.prev);
  }

  lemma JoinKeeps(m: Sys, k: QueueLinks, p: int)
    requires Shaped(m) && Queues(m) && QueuesLinked(m, k) && Pid(p) && m.procs[p].state != Runnable
    ensures var prio := m.procs[p].prio;
      && (k.head[prio] == NULL || (0 <= k.head[prio] < MAX_PROC && 0 <= k.prev[k.head[prio]] < MAX_PROC))
      && QueuesLinked(ChangeState(m, p, Runnable), Join(k, p, prio))
  {
    var prio := m.procs[p].prio;
    var q := m.queues[prio];
    assert p !in q by { assert !Queued(m, prio, p); }
    PushMember(q, k.next, k.prev, p);
    hide IsRing;
    JoinsFront(m, p);
    hide ChangeState;
    hide Queues;
    var k' := Join(k, p, prio);
    assert q == [] ==> [p] + q == [p];
    forall o | 0 <= o <= MAX_PRIO && o != prio ensures IsRing(m.queues[o], k'.next, k'.prev) && k'.head[o] == k.head[o] {
      JoinOther(m, k, p, o);
    }
    LinkedFrom(m, k, ChangeState(m, p, Runnable), k', prio, [p] + q);
  }

  // ---------- sibling rings ----------

  datatype SiblingLinks = SiblingLinks(next: seq<int>, prev: seq<int>, child: seq<int>)

  // Orphans stay linked to the siblings they had, in rings that no descriptor heads.
  ghost predicate OrphanLinked(orphans: set<int>, k: SiblingLinks, c: int)
    requires |k.next| == MAX_PROC && |k.prev| == MAX_PROC
  {
    && 0 <= c < MAX_PROC && k.next[c] in orphans && k.prev[c] in orphans
    && 0 <= k.next[c] < MAX_PROC && 0 <= k.prev[c] < MAX_PROC
    && k.prev[k.next[c]] == c && k.next[k.prev[c]] == c
  }

  ghost predicate OrphansLinked(orphans: set<int>, k: SiblingLinks)
    requires |k.next| == MAX_PROC && |k.prev| == MAX_PROC
  {
    forall c {:trigger OrphanLinked(orphans, k, c)} | c in orphans :: OrphanLinked(orphans, k, c)
  }

  // No process is in two rings, or in a ring and an orphan.
  ghost predicate Apart(rings: seq<seq<int>>, orphans: set<int>)
    requires |rings| == MAX_PROC
  {
    && (forall q, o, c | 0 <= q < MAX_PROC && 0 <= o < MAX_PROC && q != o && c in rings[q] :: c !in rings[o])
    && (forall q, c | 0 <= q < MAX_PROC && c in rings[q] :: c !in orphans)
  }

  ghost predicate SiblingsLinked(rings: seq<seq<int>>, heads: set<int>, orphans: set<int>, k: SiblingLinks) {
    && |rings| == MAX_PROC && |k.next| == MAX_PROC && |k.prev| == MAX_PROC && |k.child| == MAX_PROC
    && (forall q | 0 <= q < MAX_PROC :: IsRing(rings[q], k.next, k.prev))
    && Apart(rings, orphans)
    && OrphansLinked(orphans, k)
    && (forall q | q in heads :: 0 <= q < MAX_PROC && k.child[q] == Head(rings[q]))
  }

  function AddChild(k: SiblingLinks, p: int, c: int): SiblingLinks
    requires 0 <= c < |k.next| == |k.prev| && 0 <= p < |k.child|
    requires k.child[p] == NULL || (0 <= k.child[p] < |k.prev| && 0 <= k.prev[k.child[p]] < |k.next|)
  {
    var h := k.child[p];
    if h == NULL then SiblingLinks(k.next[c := c], k.prev[c := c], k.child[p := c])
    else SiblingLinks(k.next[c := h][k.prev[h] := c], k.prev[c := k.prev[h]][h := c], k.child[p := c])
  }

  function RemoveChild(k: SiblingLinks, p: int, c: int): SiblingLinks
    requires 0 <= c < |k.next| == |k.prev| && 0 <= p < |k.child|
    requires 0 <= k.next[c] < |k.prev| && 0 <= k.prev[c] < |k.next|
  {
    var next := k.next[k.prev[c] := k.next[c]];
    var prev := k.prev[k.next[c] := k.prev[c]];
    SiblingLinks(next, prev, if k.child[p] == c then k.child[p := if c == next[c] then NULL else next[c]] else k.child)
  }

  // Changing the links of p's ring and of c only leaves the others alone.
  lemma RingsUntouched(rings: seq<seq<int>>, orphans: set<int>, k: SiblingLinks, k': SiblingLinks, p: int, c: int)
    requires |rings| == MAX_PROC && |k.next| == MAX_PROC && |k.prev| == MAX_PROC && |k'.next| == MAX_PROC && |k'.prev| == MAX_PROC && Pid(p)
    requires (forall q | 0 <= q < MAX_PROC :: IsRing(rings[q], k.next, k.prev)) && Apart(rings, orphans)
    requires forall q | 0 <= q < MAX_PROC && q != p :: c !in rings[q]
    requires forall x | 0 <= x < MAX_PROC && x !in rings[p] && x != c :: k'.next[x] == k.next[x] && k'.prev[x] == k.prev[x]
    ensures forall q | 0 <= q < MAX_PROC && q != p :: IsRing(rings[q], k'.next, k'.prev)
  {
    hide IsRing;
    forall q | 0 <= q < MAX_PROC && q != p ensures IsRing(rings[q], k'.next, k'.prev) {
      Untouched(rings[q], k.next, k.prev, k'.next, k'.prev);
    }
  }

  lemma OrphansUntouched(orphans: set<int>, k: SiblingLinks, k': SiblingLinks)
    requires |k.next| == MAX_PROC && |k.prev| == MAX_PROC && |k'.next| == MAX_PROC && |k'.prev| == MAX_PROC
    requires OrphansLinked(orphans, k)
    requires forall x | 0 <= x < MAX_PROC && x in orphans :: k'.next[x] == k.next[x] && k'.prev[x] == k.prev[x]
    ensures OrphansLinked(orphans, k')
  {
    forall c | c in orphans ensures OrphanLinked(orphans, k', c) {
      assert OrphanLinked(orphans, k, c);
    }
  }

  lemma AddChildKeeps(rings: seq<seq<int>>, heads: set<int>, orphans: set<int>, k: SiblingLinks, p: int, c: int)
    requires SiblingsLinked(rings, heads, orphans, k) && p in heads && Pid(c)
    requires c !in orphans && forall q | 0 <= q < MAX_PROC :: c !in rings[q]
    ensures k.child[p] == NULL || (0 <= k.child[p] < MAX_PROC && 0 <= k.prev[k.child[p]] < MAX_PROC)
    ensures SiblingsLinked(rings[p := [c] + rings[p]], heads, orphans, AddChild(k, p, c))
  {
    var r := rings[p];
    PushMember(r, k.next, k.prev, c);
    hide IsRing;
    hide OrphansLinked;
    var k' := AddChild(k, p, c);
    if r != [] { assert r[0] in r && r[|r| - 1] in r; }
    RingsUntouched(rings, orphans, k, k', p, c);
    OrphansUntouched(orphans, k, k');
    assert r == [] ==> [c] + r == [c];
    assert Apart(rings[p := [c] + rings[p]], orphans);
  }

  lemma RemoveChildKeeps(rings: seq<seq<int>>, heads: set<int>, orphans: set<int>, k: SiblingLinks, p: int, c: int)
    requires SiblingsLinked(rings, heads, orphans, k) && p in heads && c in rings[p]
    ensures Pid(c) && 0 <= k.next[c] < MAX_PROC && 0 <= k.prev[c] < MAX_PROC
    ensures SiblingsLinked(rings[p := Remove(rings[p], c)], heads, orphans, RemoveChild(k, p, c))
  {
    hide IsRing;
    hide OrphansLinked;
    hide Remove;
    hide Apart;
    var r := rings[p];
    UnlinkMember(r, k.next, k.prev, c);
    RingDistinct(r, k.next, k.prev);
    SingleLinks(r, k.next, k.prev, c);
    ApartAfterRemove(rings, orphans, p, c);
    NotElsewhere(rings, orphans, p, c);
    var k' := RemoveChild(k, p, c);
    RingsUntouched(rings, orphans, k, k', p, c);
    OrphansUntouched(orphans, k, k');
    assert k'.child[p] == Head(Remove(r, c));
    assert IsRing(Remove(r, c), k'.next, k'.prev);
  }

  lemma NotElsewhere(rings: seq<seq<int>>, orphans: set<int>, p: int, c: int)
    requires |rings| == MAX_PROC && Apart(rings, orphans) && Pid(p) && c in rings[p]
    ensures forall q | 0 <= q < MAX_PROC && q != p :: c !in rings[q]
    ensures forall x | x in rings[p] :: x !in orphans
  {
  }

  lemma ApartAfterRemove(rings: seq<seq<int>>, orphans: set<int>, p: int, c: int)
    requires |rings| == MAX_PROC && Apart(rings, orphans) && Pid(p) && Distinct(rings[p])
    ensures Apart(rings[p := Remove(rings[p], c)], orphans)
  {
    RemoveKeeps(rings[p], c);
    hide Remove;
  }

  lemma RingDistinct(q: seq<int>, next: seq<int>, prev: seq<int>)
    requires IsRing(q, next, prev)
    ensures Distinct(q)
  {
  }

  lemma SingleLinks(q: seq<int>, next: seq<int>, prev: seq<int>, c: int)
    requires IsRing(q, next, prev) && c in q && 0 <= c < |next| == |prev|
    ensures prev[c] == c <==> next[c] == c
  {
    var i :| 0 <= i < |q| && q[i] == c;
  }

  lemma RemoveOrphanKeeps(rings: seq<seq<int>>, heads: set<int>, orphans: set<int>, k: SiblingLinks, p: int, c: int)
    requires SiblingsLinked(rings, heads, orphans, k) && p in heads && c in orphans
    ensures Pid(c) && 0 <= k.next[c] < MAX_PROC && 0 <= k.prev[c] < MAX_PROC
    ensures SiblingsLinked(rings, heads, orphans - {c}, RemoveChild(k, p, c))
  {
    hide IsRing;
    assert OrphanLinked(orphans, k, c);
    var k' := RemoveChild(k, p, c);
    assert k.child[p] != c by {
      if rings[p] != [] { assert rings[p][0] in rings[p]; }
    }
    forall q | 0 <= q < MAX_PROC ensures IsRing(rings[q], k'.next, k'.prev) {
      Untouched(rings[q], k.next, k.prev, k'.next, k'.prev);
    }
    OrphanUnlinked(orphans, k, k', c);
  }

  lemma OrphanUnlinked(orphans: set<int>, k: SiblingLinks, k': SiblingLinks, c: int)
    requires |k.next| == MAX_PROC && |k.prev| == MAX_PROC && OrphansLinked(orphans, k) && c in orphans && OrphanLinked(orphans, k, c)
    requires k'.next == k.next[k.prev[c] := k.next[c]] && k'.prev == k.prev[k.next[c] := k.prev[c]]
    ensures OrphansLinked(orphans - {c}, k')
  {
    forall x | x in orphans - {c} ensures OrphanLinked(orphans - {c}, k', x) {
      assert OrphanLinked(orphans, k, x);
      assert OrphanLinked(orphans, k, k.next[x]);
      assert OrphanLinked(orphans, k, k.prev[x]);
      assert OrphanLinked(orphans, k, k.next[c]);
      assert OrphanLinked(orphans, k, k.prev[c]);
    }
  }

  lemma ApartAfterAbandon(rings: seq<seq<int>>, orphans: set<int>, p: int)
    requires |rings| == MAX_PROC && Apart(rings, orphans) && Pid(p)
    ensures Apart(rings[p := []], orphans + (set c | c in rings[p]))
  {
    var rings', all := rings[p := []], orphans + (set c | c in rings[p]);
    forall q, c | 0 <= q < MAX_PROC && c in rings'[q] ensures c !in all {
      assert c in rings[q];
    }
  }

  lemma OrphansAfterAbandon(r: seq<int>, orphans: set<int>, k: SiblingLinks)
    requires |k.next| == MAX_PROC && |k.prev| == MAX_PROC && IsRing(r, k.next, k.prev) && OrphansLinked(orphans, k)
    ensures OrphansLinked(orphans + (set c | c in r), k)
  {
    hide IsRing;
    var all := orphans + (set c | c in r);
    forall c | c in all ensures OrphanLinked(all, k, c) {
      if c in r {
        RingInverse(r, k.next, k.prev, c);
      } else {
        assert OrphanLinked(orphans, k, c);
      }
    }
  }

  // The ring of a process that exits.
  lemma AbandonKeeps(rings: seq<seq<int>>, heads: set<int>, orphans: set<int>, k: SiblingLinks, p: int)
    requires SiblingsLinked(rings, heads, orphans, k) && Pid(p)
    ensures SiblingsLinked(rings[p := []], heads - {p}, orphans + (set c | c in rings[p]), k)
  {
    EmptyRing(k.next, k.prev);
    hide IsRing;
    hide Apart;
    hide OrphansLinked;
    ApartAfterAbandon(rings, orphans, p);
    OrphansAfterAbandon(rings[p], orphans, k);
  }

  lemma EmptyRing(next: seq<int>, prev: seq<int>)
    requires |next| == |prev|
    ensures IsRing([], next, prev)
  {
  }

  lemma RingInverse(q: seq<int>, next: seq<int>, prev: seq<int>, c: int)
    requires IsRing(q, next, prev) && c in q
    ensures 0 <= c < |next| == |prev| && next[c] in q && prev[c] in q && 0 <= next[c] < |prev| && 0 <= prev[c] < |next|
    ensures prev[next[c]] == c && next[prev[c]] == c
  {
    var i :| 0 <= i < |q| && q[i] == c;
    var a, b := After(i, |q|), Before(i, |q|);
    assert next[c] == q[a] && prev[c] == q[b];
    assert Before(a, |q|) == i && After(b, |q|) == i;
  }
}
