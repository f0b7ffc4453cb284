/**
 Frame safety: what every step of the paging machine keeps.
 */
module PagingSafety {
  import opened Bytes
  import opened PagingModel

  datatype Slot = Slot(pid: int, page: int)

  // The valid mappings of frame f, over all tables.
  ghost function Mappings(s: State, f: nat): set<Slot>
    requires Shaped(s)
  {
    set pid, p | 0 <= pid < N_PROC && p in s.tables[pid] && s.tables[pid][p].frame == f :: Slot(pid, p)
  }

  ghost predicate Maps(s: State, pid: int, p: int, f: int)
    requires Shaped(s)
  {
    0 <= pid < N_PROC && p in s.tables[pid] && s.tables[pid][p].frame == f
  }

  // Two mappings of one frame are at one virtual page, and are read-only when they belong
  // to two processes: a writable mapping is its frame's only mapping.
  ghost predicate Coherent(s: State)
    requires Shaped(s)
  {
    forall pid, p, pid', p', f | Maps(s, pid, p, f) && Maps(s, pid', p', f) ::
      p == p' && (pid == pid' || s.tables[pid][p].perm == ForkedPage)
  }

  // A bind counter never undercounts.
  ghost predicate Counted(s: State)
    requires Shaped(s)
  {
    forall f {:trigger Mappings(s, f)} | 0 <= f < N_FRAMES && f !in PERIPHERALS :: |Mappings(s, f)| <= s.counter[f]
  }

  ghost predicate UserEntry(s: State, pid: int, p: int)
    requires Shaped(s) && 0 <= pid < N_PROC && p in s.tables[pid]
  {
    && 0 <= p < GPIO_PAGE && p != PAGE_RES_1 && p != PAGE_RES_2
    && s.tables[pid][p].frame !in PERIPHERALS
    && (IsStack(p) ==> s.counter[s.tables[pid][p].frame] == 1 && s.tables[pid][p].perm != ForkedPage)
  }

  ghost predicate UserEntries(s: State)
    requires Shaped(s)
  {
    forall pid, p | 0 <= pid < N_PROC && p in s.tables[pid] :: UserEntry(s, pid, p)
  }

  ghost predicate FreeOk(s: State)
    requires Shaped(s)
  {
    && (forall i, j | 0 <= i < j < |s.free| :: s.free[i] != s.free[j])
    && (forall i | 0 <= i < |s.free| && s.free[i] !in PERIPHERALS :: s.counter[s.free[i]] == 0)
  }

  ghost predicate LiveOk(s: State)
    requires Shaped(s)
  {
    forall pid | pid in s.live :: 0 <= pid < N_PROC && HasStack(s, pid)
  }

  ghost predicate Inv(s: State) {
    Shaped(s) && Coherent(s) && Counted(s) && UserEntries(s) && FreeOk(s) && LiveOk(s)
  }

  // ---------- consequences of the invariant ----------

  lemma MapsIffMapping(s: State, pid: int, p: int, f: nat)
    requires Shaped(s)
    ensures Maps(s, pid, p, f) <==> Slot(pid, p) in Mappings(s, f)
  {
  }

  lemma PairBound<T>(a: T, b: T, xs: set<T>)
    requires a in xs && b in xs && |xs| <= 1
    ensures a == b
  {
    assert |xs - {a}| == |xs| - 1;
  }

  // A frame whose counter is one has one mapping at most.
  lemma Alone(s: State, pid: int, p: int, pid': int, p': int, f: nat)
    requires Inv(s) && f < N_FRAMES && f !in PERIPHERALS && s.counter[f] <= 1
    requires Maps(s, pid, p, f) && Maps(s, pid', p', f)
    ensures pid == pid' && p == p'
  {
    MapsIffMapping(s, pid, p, f);
    MapsIffMapping(s, pid', p', f);
    PairBound(Slot(pid, p), Slot(pid', p'), Mappings(s, f));
  }

  // A mapped frame is counted, so it is not on the free stack.
  lemma MappedIsCounted(s: State, pid: int, p: int)
    requires Inv(s) && 0 <= pid < N_PROC && p in s.tables[pid]
    ensures s.counter[s.tables[pid][p].frame] > 0
    ensures s.tables[pid][p].frame !in s.free
  {
    var f := s.tables[pid][p].frame;
    assert UserEntry(s, pid, p);
    MapsIffMapping(s, pid, p, f);
    assert Mappings(s, f) != {};
  }

  lemma FreshIsUnmapped(s: State, pid: int, p: int, f: nat)
    requires Inv(s) && f in s.free
    ensures !Maps(s, pid, p, f)
  {
    if Maps(s, pid, p, f) {
      MappedIsCounted(s, pid, p);
    }
  }

  // ---------- preservation, one operation at a time ----------

  // Frames handed out by the free stack are RAM: the stack has not run down to the
  // peripheral page that the initial list fails to skip.
  ghost predicate FramesLeft(s: State, n: nat) {
    n <= |s.free| && forall i | 0 <= i < n :: s.free[i] !in PERIPHERALS
  }

  // What a table update at one slot does to the mappings of each frame.
  lemma MappingsAfterPut(s: State, t: State, pid: nat, page: int, e: Pte, f: nat)
    requires Shaped(s) && Shaped(t) && pid < N_PROC
    requires t.tables == s.tables[pid := s.tables[pid][page := e]]
    ensures Mappings(t, f) == if e.frame == f then Mappings(s, f) + {Slot(pid, page)} else Mappings(s, f) - {Slot(pid, page)}
  {
    forall q, p
      ensures Slot(q, p) in Mappings(t, f) <==>
        Slot(q, p) in if e.frame == f then Mappings(s, f) + {Slot(pid, page)} else Mappings(s, f) - {Slot(pid, page)}
    {
      MapsIffMapping(t, q, p, f);
      MapsIffMapping(s, q, p, f);
    }
  }

  // Putting at one slot a frame that is mapped nowhere else keeps coherence.
  lemma CoherentAfterPut(s: State, t: State, pid: nat, page: int, e: Pte)
    requires Shaped(s) && Coherent(s) && Shaped(t) && pid < N_PROC
    requires t.tables == s.tables[pid := s.tables[pid][page := e]]
    requires forall q, p | Maps(s, q, p, e.frame) :: q == pid && p == page
    ensures Coherent(t)
  {
    forall q, p, q', p', f | Maps(t, q, p, f) && Maps(t, q', p', f)
      ensures p == p' && (q == q' || t.tables[q][p].perm == ForkedPage)
    {
      MappedBefore(s, t, pid, page, e, q, p, f);
      MappedBefore(s, t, pid, page, e, q', p', f);
    }
  }

  lemma MappedBefore(s: State, t: State, pid: nat, page: int, e: Pte, q: int, p: int, f: nat)
    requires Shaped(s) && Shaped(t) && pid < N_PROC
    requires t.tables == s.tables[pid := s.tables[pid][page := e]] && Maps(t, q, p, f)
    ensures if q == pid && p == page then f == e.frame else Maps(s, q, p, f)
  {
  }

  // Removing mappings keeps coherence.
  lemma CoherentAfterRemove(s: State, t: State)
    requires Shaped(s) && Coherent(s) && Shaped(t)
    requires forall q, p | 0 <= q < N_PROC && p in t.tables[q] :: p in s.tables[q] && t.tables[q][p] == s.tables[q][p]
    ensures Coherent(t)
  {
    forall q, p, q', p', f | Maps(t, q, p, f) && Maps(t, q', p', f)
      ensures p == p' && (q == q' || t.tables[q][p].perm == ForkedPage)
    {
      assert Maps(s, q, p, f) && Maps(s, q', p', f);
    }
  }

  // A stack entry is untouched when the counters of all frames but g are, and g is not its frame.
  lemma EntryKept(s: State, t: State, q: nat, p: int)
    requires Shaped(s) && Shaped(t) && q < N_PROC && p in s.tables[q] && UserEntry(s, q, p)
    requires p in t.tables[q] && t.tables[q][p] == s.tables[q][p]
    requires IsStack(p) ==> t.counter[s.tables[q][p].frame] == s.counter[s.tables[q][p].frame]
    ensures UserEntry(t, q, p)
  {
  }

  lemma NewPageKeeps(s: State, pid: nat, page: nat, perm: Perm)
    requires Inv(s) && FramesLeft(s, 1) && pid < N_PROC
    requires page !in s.tables[pid] && page < TIMER_PAGE
    ensures Inv(NewPage(s, pid, page, perm))
  {
    var t := NewPage(s, pid, page, perm);
    var g := s.free[0];
    forall f | 0 <= f < N_FRAMES && f !in PERIPHERALS
      ensures |Mappings(t, f)| <= t.counter[f]
    {
      MappingsAfterPut(s, t, pid, page, Pte(g, perm), f);
    }
    forall q, p ensures !Maps(s, q, p, g) {
      FreshIsUnmapped(s, q, p, g);
    }
    CoherentAfterPut(s, t, pid, page, Pte(g, perm));
    forall q, p | 0 <= q < N_PROC && p in t.tables[q]
      ensures UserEntry(t, q, p)
    {
      if q != pid || p != page {
        assert !Maps(s, q, p, g);
        EntryKept(s, t, q, p);
      }
    }
  }

  lemma StoreKeeps(s: State, pid: nat, page: nat, offset: nat, b: Byte)
    requires Inv(s) && pid < N_PROC && page in s.tables[pid] && offset < GRANULE
    ensures Inv(Store(s, pid, page, offset, b))
  {
    var t := Store(s, pid, page, offset, b);
    forall f: nat ensures Mappings(t, f) == Mappings(s, f) {}
    CoherentAfterRemove(s, t);
    forall q, p | 0 <= q < N_PROC && p in t.tables[q]
      ensures UserEntry(t, q, p)
    {
      EntryKept(s, t, q, p);
    }
  }

  lemma MappingsAfterRelease(s: State, pid: nat, page: nat, f: nat)
    requires Shaped(s) && pid < N_PROC && page in s.tables[pid]
    ensures Mappings(Release(s, pid, page), f) == Mappings(s, f) - {Slot(pid, page)}
  {
    var t := Release(s, pid, page);
    forall q, p ensures Slot(q, p) in Mappings(t, f) <==> Slot(q, p) in Mappings(s, f) - {Slot(pid, page)} {
      MapsIffMapping(t, q, p, f);
      MapsIffMapping(s, q, p, f);
    }
  }

  lemma ReleaseKeepsEntries(s: State, pid: nat, page: nat, q: nat, p: int)
    requires Inv(s) && pid < N_PROC && page in s.tables[pid]
    requires q < N_PROC && p in Release(s, pid, page).tables[q]
    ensures UserEntry(Release(s, pid, page), q, p)
  {
    assert UserEntry(s, q, p);
    assert Maps(s, q, p, s.tables[q][p].frame) && Maps(s, pid, page, s.tables[pid][page].frame);
  }

  lemma ReleaseKeepsCounted(s: State, pid: nat, page: nat, f: nat)
    requires Inv(s) && pid < N_PROC && page in s.tables[pid] && f < N_FRAMES && f !in PERIPHERALS
    ensures |Mappings(Release(s, pid, page), f)| <= Release(s, pid, page).counter[f]
  {
    MappedIsCounted(s, pid, page);
    MappingsAfterRelease(s, pid, page, f);
    MapsIffMapping(s, pid, page, f);
  }

  lemma ReleaseKeeps(s: State, pid: nat, page: nat)
    requires Inv(s) && pid < N_PROC && page in s.tables[pid]
    requires pid in s.live ==> !IsStack(page)
    ensures Inv(Release(s, pid, page))
  {
    var t := Release(s, pid, page);
    var g := s.tables[pid][page].frame;
    MappedIsCounted(s, pid, page);
    assert UserEntry(s, pid, page);
    forall f | 0 <= f < N_FRAMES && f !in PERIPHERALS
      ensures |Mappings(t, f)| <= t.counter[f]
    {
      ReleaseKeepsCounted(s, pid, page, f);
    }
    CoherentAfterRemove(s, t);
    forall q, p | 0 <= q < N_PROC && p in t.tables[q]
      ensures UserEntry(t, q, p)
    {
      ReleaseKeepsEntries(s, pid, page, q, p);
    }
  }

  // The write fault of a process that is alone on its page.
  lemma PrivatiseAloneKeeps(s: State, pid: nat, page: nat)
    requires Inv(s) && pid < N_PROC && page in s.tables[pid]
    requires s.counter[s.tables[pid][page].frame] <= 1
    ensures Inv(Privatise(s, pid, page))
  {
    var t := Privatise(s, pid, page);
    var e := s.tables[pid][page];
    assert UserEntry(s, pid, page);
    assert Maps(s, pid, page, e.frame);
    forall f | 0 <= f < N_FRAMES && f !in PERIPHERALS
      ensures |Mappings(t, f)| <= t.counter[f]
    {
      MappingsAfterPut(s, t, pid, page, e.(perm := UserPage), f);
      MapsIffMapping(s, pid, page, f);
    }
    forall q, p | Maps(s, q, p, e.frame) ensures q == pid && p == page {
      Alone(s, q, p, pid, page, e.frame);
    }
    CoherentAfterPut(s, t, pid, page, e.(perm := UserPage));
    forall q, p | 0 <= q < N_PROC && p in t.tables[q]
      ensures UserEntry(t, q, p)
    {
      if q != pid || p != page {
        EntryKept(s, t, q, p);
      }
    }
  }

  // The write fault on a shared page.
  lemma PrivatiseSharedKeeps(s: State, pid: nat, page: nat)
    requires Inv(s) && pid < N_PROC && page in s.tables[pid]
    requires s.counter[s.tables[pid][page].frame] > 1 && FramesLeft(s, 1)
    ensures Inv(Privatise(s, pid, page))
  {
    var t := Privatise(s, pid, page);
    var e := s.tables[pid][page];
    var g := s.free[0];
    assert UserEntry(s, pid, page);
    forall q, p ensures !Maps(s, q, p, g) {
      FreshIsUnmapped(s, q, p, g);
    }
    assert Maps(s, pid, page, e.frame);
    forall f | 0 <= f < N_FRAMES && f !in PERIPHERALS
      ensures |Mappings(t, f)| <= t.counter[f]
    {
      MappingsAfterPut(s, t, pid, page, Pte(g, UserPage), f);
      MapsIffMapping(s, pid, page, f);
    }
    CoherentAfterPut(s, t, pid, page, Pte(g, UserPage));
    forall q, p | 0 <= q < N_PROC && p in t.tables[q]
      ensures UserEntry(t, q, p)
    {
      if q != pid || p != page {
        assert !Maps(s, q, p, g);
        assert UserEntry(s, q, p);
        assert IsStack(p) ==> s.tables[q][p].frame != e.frame;
        EntryKept(s, t, q, p);
      }
    }
    MappedIsCounted(s, pid, page);
  }

  // ---------- frames are never created ----------

  // Every frame on the free stack or in a table is one of pool.
  ghost predicate Pool(s: State, pool: set<nat>)
    requires Shaped(s)
  {
    && (forall i | 0 <= i < |s.free| :: s.free[i] in pool)
    && (forall pid, p | 0 <= pid < N_PROC && p in s.tables[pid] :: s.tables[pid][p].frame in pool)
  }

  lemma {:induction false} DistinctFits(xs: seq<nat>, pool: set<nat>)
    requires forall i, j | 0 <= i < j < |xs| :: xs[i] != xs[j]
    requires forall i | 0 <= i < |xs| :: xs[i] in pool
    ensures |xs| <= |pool|
  {
    if xs != [] {
      DistinctFits(xs[1..], pool - {xs[0]});
    }
  }

  // While some page is mapped the free stack is not full, so a released frame fits.
  lemma RoomToRelease(s: State, pool: set<nat>, pid: nat, page: int)
    requires Inv(s) && Pool(s, pool) && pid < N_PROC && page in s.tables[pid]
    ensures |s.free| < |pool|
  {
    MappedIsCounted(s, pid, page);
    DistinctFits(s.free, pool - {s.tables[pid][page].frame});
  }

  lemma ReleasePool(s: State, pool: set<nat>, pid: nat, page: nat)
    requires Shaped(s) && Pool(s, pool) && pid < N_PROC && page in s.tables[pid]
    ensures Pool(Release(s, pid, page), pool)
  {
  }
}
