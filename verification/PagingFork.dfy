/**
 What a fork does to tables and counters, and when it keeps the invariant.
 */
module PagingFork {
  import opened PagingModel
  import opened PagingSafety

  ghost predicate ForkEnabled(s: State, parent: nat, child: nat)
    requires Shaped(s)
  {
    parent in s.live && parent < N_PROC && HasStack(s, parent)
    && child !in s.live && child < N_PROC && FramesLeft(s, 2)
  }

  // p is a page that the parent will share.
  predicate Shares(s: State, parent: nat, p: int, f: int)
    requires Shaped(s) && parent < N_PROC
  {
    p in s.tables[parent] && !IsStack(p) && s.tables[parent][p].frame == f
  }

  // No counter of a page to be shared is at its largest value.
  ghost predicate RoomToShare(s: State, parent: nat)
    requires Shaped(s) && parent < N_PROC
  {
    forall p, f | Shares(s, parent, p, f) && 0 <= f < N_FRAMES :: s.counter[f] < 255
  }

  // The tables, the free stack and the live set of r are those after a fork in s.
  ghost predicate ForkedTables(r: State, s: State, parent: nat, child: nat)
    requires Shaped(s) && parent < N_PROC && child < N_PROC && |s.free| > 1
  {
    && Shaped(r) && r.live == s.live + {child} && r.free == s.free[2..]
    && r.tables[child] == Demoted(s.tables[parent])[STACK_PAGE_1 := Pte(s.free[0], UserPage)][STACK_PAGE_2 := Pte(s.free[1], UserPage)]
    && (parent != child ==> r.tables[parent] == Demoted(s.tables[parent]))
    && (forall q | 0 <= q < N_PROC && q != child && q != parent :: r.tables[q] == s.tables[q])
  }

  lemma ForkTables(s: State, parent: nat, child: nat)
    requires Shaped(s) && parent < N_PROC && child < N_PROC && HasStack(s, parent) && |s.free| > 1
    ensures ForkedTables(Fork(s, parent, child), s, parent, child)
  {
  }

  // The four frames that the stack copies touch.
  lemma StackFrames(s: State, parent: nat, child: nat)
    requires Inv(s) && ForkEnabled(s, parent, child)
    ensures var t := s.tables[parent];
      var a1, a2 := t[STACK_PAGE_1].frame, t[STACK_PAGE_2].frame;
      && a1 != a2 && s.free[0] != s.free[1]
      && s.counter[a1] == 1 && s.counter[a2] == 1 && s.counter[s.free[0]] == 0 && s.counter[s.free[1]] == 0
      && (forall p | p in t :: t[p].frame != s.free[0] && t[p].frame != s.free[1])
      && (forall p | p in t && !IsStack(p) :: t[p].frame != a1 && t[p].frame != a2)
  {
    var t := s.tables[parent];
    assert UserEntry(s, parent, STACK_PAGE_1) && UserEntry(s, parent, STACK_PAGE_2);
    assert Maps(s, parent, STACK_PAGE_1, t[STACK_PAGE_1].frame) && Maps(s, parent, STACK_PAGE_2, t[STACK_PAGE_2].frame);
    forall p | p in t
      ensures t[p].frame != s.free[0] && t[p].frame != s.free[1]
      ensures !IsStack(p) ==> t[p].frame != t[STACK_PAGE_1].frame && t[p].frame != t[STACK_PAGE_2].frame
    {
      assert Maps(s, parent, p, t[p].frame);
      MappedIsCounted(s, parent, p);
    }
  }

  lemma ForkCounterChain(s: State, parent: nat, child: nat)
    requires Shaped(s) && parent < N_PROC && child < N_PROC && HasStack(s, parent) && |s.free| > 1
    ensures var t := s.tables[parent];
      var a1, a2, g1, g2 := t[STACK_PAGE_1].frame, t[STACK_PAGE_2].frame, s.free[0], s.free[1];
      var c0 := Share(s, parent, child).counter;
      var c1 := c0[a1 := Dec(c0[a1])];
      var c2 := c1[g1 := Inc(c1[g1])];
      var c3 := c2[a2 := Dec(c2[a2])];
      Fork(s, parent, child).counter == c3[g2 := Inc(c3[g2])]
  {
  }

  lemma ForkCounterAt(s: State, parent: nat, child: nat, f: nat)
    requires Shaped(s) && parent < N_PROC && child < N_PROC && HasStack(s, parent) && |s.free| > 1 && f < N_FRAMES
    requires var t := s.tables[parent];
      var a1, a2, g1, g2 := t[STACK_PAGE_1].frame, t[STACK_PAGE_2].frame, s.free[0], s.free[1];
      a1 != a2 && a1 != g1 && a1 != g2 && a2 != g1 && a2 != g2 && g1 != g2
    ensures var t := s.tables[parent];
      var c := Share(s, parent, child).counter[f];
      Fork(s, parent, child).counter[f] ==
        if f == s.free[0] || f == s.free[1] then Inc(c)
        else if f == t[STACK_PAGE_1].frame || f == t[STACK_PAGE_2].frame then Dec(c)
        else c
  {
    ForkCounterChain(s, parent, child);
  }

  // Only the frames that stay shared are counted once more; the two new stack frames
  // are counted once.
  ghost function ForkedCounter(s: State, parent: nat, f: nat): nat
    requires Shaped(s) && parent < N_PROC && |s.free| > 1 && f < N_FRAMES
  {
    if f == s.free[0] || f == s.free[1] then 1
    else if exists p :: Shares(s, parent, p, f) then Inc(s.counter[f])
    else s.counter[f]
  }

  lemma ForkCounters(s: State, parent: nat, child: nat, f: nat)
    requires Inv(s) && ForkEnabled(s, parent, child) && f < N_FRAMES
    ensures Fork(s, parent, child).counter[f] == ForkedCounter(s, parent, f)
  {
    StackFrames(s, parent, child);
    ForkCounterAt(s, parent, child, f);
    ShareCounter(s, parent, child, f);
    var t := s.tables[parent];
    assert f == t[STACK_PAGE_1].frame || f == t[STACK_PAGE_2].frame ==> Dec(Inc(s.counter[f])) == s.counter[f];
    if q :| q in t && t[q].frame == f && !IsStack(q) {
      assert Shares(s, parent, q, f);
    }
  }

  lemma ShareCounter(s: State, parent: nat, child: nat, f: nat)
    requires Shaped(s) && parent < N_PROC && child < N_PROC && f < N_FRAMES
    ensures Share(s, parent, child).counter[f] ==
      if exists q :: q in s.tables[parent] && s.tables[parent][q].frame == f then Inc(s.counter[f]) else s.counter[f]
  {
    var t := s.tables[parent];
    assert f in FramesOf(Demoted(t)) <==> exists q :: q in t && t[q].frame == f by {
      if q :| q in t && t[q].frame == f {
        assert q in Demoted(t) && Demoted(t)[q].frame == f;
      }
    }
  }

  // ---------- the invariant after a fork ----------

  // r is the state after a fork in s, described slot by slot and frame by frame.
  ghost predicate IsForkOf(r: State, s: State, parent: nat, child: nat)
    requires Shaped(s) && parent < N_PROC && child < N_PROC && |s.free| > 1
  {
    && ForkedTables(r, s, parent, child)
    && (forall f | 0 <= f < N_FRAMES :: r.counter[f] == ForkedCounter(s, parent, f))
  }

  lemma ForkIs(s: State, parent: nat, child: nat)
    requires Inv(s) && ForkEnabled(s, parent, child)
    ensures IsForkOf(Fork(s, parent, child), s, parent, child)
  {
    ForkTables(s, parent, child);
    var r := Fork(s, parent, child);
    forall f | 0 <= f < N_FRAMES
      ensures r.counter[f] == ForkedCounter(s, parent, f)
    {
      ForkCounters(s, parent, child, f);
    }
  }

  // Where a mapping of the forked state comes from.
  ghost predicate Origin(s: State, parent: nat, child: nat, q: nat, p: int, f: nat, perm: Perm)
    requires Shaped(s) && |s.free| > 1
  {
    if q == child && IsStack(p) then
      perm == UserPage && f == (if p == STACK_PAGE_1 then s.free[0] else s.free[1])
    else
      var o := if q == child then parent else q;
      && Maps(s, o, p, f) && f != s.free[0] && f != s.free[1]
      && (perm == s.tables[o][p].perm || perm == ForkedPage)
      && (q == child || (q == parent && !IsStack(p)) ==> perm == ForkedPage)
  }

  lemma ForkMaps(r: State, s: State, parent: nat, child: nat, q: nat, p: int, f: nat)
    requires Inv(s) && ForkEnabled(s, parent, child) && IsForkOf(r, s, parent, child)
    requires Maps(r, q, p, f)
    ensures Origin(s, parent, child, q, p, f, r.tables[q][p].perm)
  {
    var o := if q == child then parent else q;
    if q != child || !IsStack(p) {
      assert Maps(s, o, p, f);
      MappedIsCounted(s, o, p);
    }
  }

  lemma CoherentPair(s: State, parent: nat, child: nat, q: nat, p: int, q': nat, p': int, f: nat, perm: Perm, perm': Perm)
    requires Inv(s) && ForkEnabled(s, parent, child)
    requires Origin(s, parent, child, q, p, f, perm) && Origin(s, parent, child, q', p', f, perm')
    ensures p == p' && (q == q' || perm == ForkedPage)
  {
  }

  lemma ForkCoherent(r: State, s: State, parent: nat, child: nat)
    requires Inv(s) && ForkEnabled(s, parent, child) && IsForkOf(r, s, parent, child)
    ensures Coherent(r)
  {
    forall q, p, q', p', f | Maps(r, q, p, f) && Maps(r, q', p', f)
      ensures p == p' && (q == q' || r.tables[q][p].perm == ForkedPage)
    {
      ForkMaps(r, s, parent, child, q, p, f);
      ForkMaps(r, s, parent, child, q', p', f);
      CoherentPair(s, parent, child, q, p, q', p', f, r.tables[q][p].perm, r.tables[q'][p'].perm);
    }
  }

  lemma ForkMappings(r: State, s: State, parent: nat, child: nat, f: nat) returns (page: int)
    requires Inv(s) && ForkEnabled(s, parent, child) && IsForkOf(r, s, parent, child)
    ensures f == s.free[0] ==> Mappings(r, f) <= {Slot(child, STACK_PAGE_1)}
    ensures f == s.free[1] ==> Mappings(r, f) <= {Slot(child, STACK_PAGE_2)}
    ensures f != s.free[0] && f != s.free[1] ==>
      if exists p :: Shares(s, parent, p, f) then
        Mappings(r, f) <= Mappings(s, f) + {Slot(child, page)}
      else Mappings(r, f) <= Mappings(s, f)
  {
    page := if exists p :: Shares(s, parent, p, f) then var p :| Shares(s, parent, p, f); p else 0;
    forall q, p | Slot(q, p) in Mappings(r, f)
      ensures f == s.free[0] ==> q == child && p == STACK_PAGE_1
      ensures f == s.free[1] ==> q == child && p == STACK_PAGE_2
      ensures f != s.free[0] && f != s.free[1] ==>
        Slot(q, p) in Mappings(s, f) || (q == child && Shares(s, parent, p, f) && p == page)
    {
      MapsIffMapping(r, q, p, f);
      ForkMaps(r, s, parent, child, q, p, f);
      MapsIffMapping(s, q, p, f);
      if q == child && !IsStack(p) {
        assert Shares(s, parent, p, f) && Shares(s, parent, page, f);
        assert Maps(s, parent, p, f) && Maps(s, parent, page, f);
      }
    }
  }

  lemma SubsetBound<T>(xs: set<T>, ys: set<T>, y: T)
    requires xs <= ys + {y}
    ensures |xs| <= |ys| + 1
  {
    SubsetSize(xs, ys + {y});
  }

  lemma {:induction false} SubsetSize<T>(xs: set<T>, ys: set<T>)
    requires xs <= ys
    ensures |xs| <= |ys|
  {
    if x :| x in xs {
      SubsetSize(xs - {x}, ys - {x});
    }
  }

  lemma ForkCountedAt(r: State, s: State, parent: nat, child: nat, f: nat)
    requires Inv(s) && ForkEnabled(s, parent, child) && IsForkOf(r, s, parent, child) && RoomToShare(s, parent)
    requires f < N_FRAMES && f !in PERIPHERALS
    ensures |Mappings(r, f)| <= r.counter[f]
  {
    var page := ForkMappings(r, s, parent, child, f);
    if f == s.free[0] || f == s.free[1] {
      SubsetSize(Mappings(r, f), {Slot(child, if f == s.free[0] then STACK_PAGE_1 else STACK_PAGE_2)});
    } else if exists p :: Shares(s, parent, p, f) {
      SubsetBound(Mappings(r, f), Mappings(s, f), Slot(child, page));
    } else {
      SubsetSize(Mappings(r, f), Mappings(s, f));
    }
  }

  lemma ForkUserEntries(r: State, s: State, parent: nat, child: nat)
    requires Inv(s) && ForkEnabled(s, parent, child) && IsForkOf(r, s, parent, child)
    ensures UserEntries(r)
  {
    forall q, p | 0 <= q < N_PROC && p in r.tables[q]
      ensures UserEntry(r, q, p)
    {
      var f := r.tables[q][p].frame;
      assert Maps(r, q, p, f);
      ForkMaps(r, s, parent, child, q, p, f);
      var o := if q == child then parent else q;
      if q != child || !IsStack(p) {
        assert UserEntry(s, o, p);
        if p' :| Shares(s, parent, p', f) {
          assert Maps(s, parent, p', f) && Maps(s, o, p, f);
        }
      }
    }
  }

  lemma ForkFreeOk(r: State, s: State, parent: nat, child: nat)
    requires Inv(s) && ForkEnabled(s, parent, child) && IsForkOf(r, s, parent, child)
    ensures FreeOk(r)
  {
    forall i | 0 <= i < |r.free| && r.free[i] !in PERIPHERALS
      ensures r.counter[r.free[i]] == 0
    {
      var f := s.free[i + 2];
      assert r.free[i] == f;
      if p :| Shares(s, parent, p, f) {
        MappedIsCounted(s, parent, p);
      }
    }
  }

  lemma WrapBreaks(r: State, s: State, parent: nat, child: nat, p: int, f: nat)
    requires Inv(s) && ForkEnabled(s, parent, child) && IsForkOf(r, s, parent, child)
    requires Shares(s, parent, p, f) && f < N_FRAMES && s.counter[f] == 255
    ensures r.counter[f] == 0 && Maps(r, parent, p, f) && Maps(r, child, p, f)
    ensures !Counted(r)
  {
    MappedIsCounted(s, parent, p);
    assert UserEntry(s, parent, p);
    MapsIffMapping(r, parent, p, f);
    assert Mappings(r, f) != {};
  }

  // A fork keeps the invariant exactly when no shared counter is about to wrap around.
  lemma ForkKeepsIff(s: State, parent: nat, child: nat)
    requires Inv(s) && ForkEnabled(s, parent, child)
    ensures Inv(Fork(s, parent, child)) <==> RoomToShare(s, parent)
  {
    var r := Fork(s, parent, child);
    ForkIs(s, parent, child);
    ForkKeepsIff'(r, s, parent, child);
  }

  lemma ForkKeepsIff'(r: State, s: State, parent: nat, child: nat)
    requires Inv(s) && ForkEnabled(s, parent, child) && IsForkOf(r, s, parent, child)
    ensures Inv(r) <==> RoomToShare(s, parent)
  {
    if RoomToShare(s, parent) {
      ForkCoherent(r, s, parent, child);
      forall f | 0 <= f < N_FRAMES && f !in PERIPHERALS
        ensures |Mappings(r, f)| <= r.counter[f]
      {
        ForkCountedAt(r, s, parent, child, f);
      }
      ForkUserEntries(r, s, parent, child);
      ForkFreeOk(r, s, parent, child);
    } else {
      var p, f :| Shares(s, parent, p, f) && 0 <= f < N_FRAMES && s.counter[f] >= 255;
      WrapBreaks(r, s, parent, child, p, f);
    }
  }
}
