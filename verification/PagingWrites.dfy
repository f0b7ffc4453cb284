/**
 When a write of a process is a write to its own copy: exactly, in any state, also in those
 that a wrapped counter leads to.
 */
module PagingWrites {
  import opened Bytes
  import opened PagingModel
  import opened PagingSafety
  import opened PagingRuns

  // A write from EL0 to a page that faults first.
  ghost predicate Faults(s: State, op: Op)
    requires Shaped(s)
  {
    op.WriteOp? && op.el0 && Enabled(s, op) && op.pid in s.live && !El0Writable(s.tables[op.pid][op.page].perm)
  }

  // The frame that the page had, the one it has afterwards, and the bytes that are then in it.
  ghost function Old(s: State, op: Op): (f: nat)
    requires Shaped(s) && Faults(s, op)
    ensures f < N_FRAMES
  {
    s.tables[op.pid][op.page].frame
  }

  ghost function Chosen(s: State, op: Op): (f: nat)
    requires Shaped(s) && Faults(s, op)
    ensures f < N_FRAMES
  {
    if s.counter[Old(s, op)] > 1 then s.free[0] else Old(s, op)
  }

  ghost function WrittenBytes(s: State, op: Op): (c: Content)
    requires Shaped(s) && Faults(s, op)
  {
    s.mem[Old(s, op)][op.offset := op.value]
  }

  lemma WriteEffect(s: State, op: Op)
    requires Shaped(s) && Faults(s, op)
    ensures var t := Step(s, op); var g := Chosen(s, op);
      && t.live == s.live && t.mem == s.mem[g := WrittenBytes(s, op)]
      && t.tables == s.tables[op.pid := s.tables[op.pid][op.page := Pte(g, UserPage)]]
  {
  }

  // Another mapping of a live process.
  ghost predicate AlsoMaps(s: State, op: Op, q: nat, p: int, f: nat)
    requires Shaped(s) && op.WriteOp?
  {
    q in s.live && Maps(s, q, p, f) && (q != op.pid || p != op.page)
  }

  // In any state, a faulting write is a write to a copy of its own exactly when every other
  // live mapping of the frame it ends in reads the same bytes already.
  lemma WriteIsEagerIff(s: State, op: Op, fill: Content)
    requires Shaped(s) && Faults(s, op)
    ensures EagerEnabled(ViewOf(s), op)
    ensures ViewOf(Step(s, op)) == Eager(ViewOf(s), op, fill)
      <==> forall q: nat, p: int :: AlsoMaps(s, op, q, p, Chosen(s, op)) ==> s.mem[Chosen(s, op)] == WrittenBytes(s, op)
  {
    if q: nat, p: int :| AlsoMaps(s, op, q, p, Chosen(s, op)) && s.mem[Chosen(s, op)] != WrittenBytes(s, op) {
      WriteShows(s, op, fill, q, p);
    } else {
      forall q: nat | q in s.live && q < N_PROC
        ensures Space(Step(s, op), q) == if q == op.pid then Space(s, q)[op.page := WrittenBytes(s, op)] else Space(s, q)
      {
        WriteSpace(s, op, q);
      }
      assert Step(s, op).live == s.live by {
        WriteEffect(s, op);
      }
      hide Step;
      hide Space;
      WriteView(s, Step(s, op), op, fill);
    }
  }

  lemma WriteView(s: State, t: State, op: Op, fill: Content)
    requires Shaped(s) && Shaped(t) && Faults(s, op) && t.live == s.live && EagerEnabled(ViewOf(s), op)
    requires forall q: nat | q in s.live && q < N_PROC ::
      Space(t, q) == if q == op.pid then Space(s, q)[op.page := WrittenBytes(s, op)] else Space(s, q)
    ensures ViewOf(t) == Eager(ViewOf(s), op, fill)
  {
    assert Space(s, op.pid)[op.page] == s.mem[Old(s, op)];
    hide Space;
    assert ViewOf(s)[op.pid] == Space(s, op.pid);
    assert ViewOf(t).Keys == Eager(ViewOf(s), op, fill).Keys;
  }

  // The other mapping reads the bytes that were written.
  lemma WriteShows(s: State, op: Op, fill: Content, q: nat, p: int)
    requires Shaped(s) && Faults(s, op) && EagerEnabled(ViewOf(s), op)
    requires AlsoMaps(s, op, q, p, Chosen(s, op)) && s.mem[Chosen(s, op)] != WrittenBytes(s, op)
    ensures ViewOf(Step(s, op)) != Eager(ViewOf(s), op, fill)
  {
    WriteEffect(s, op);
    var t := Step(s, op);
    hide Step;
    assert ViewOf(s)[q] == Space(s, q) && ViewOf(t)[q] == Space(t, q);
    assert ViewOf(t)[q][p] == WrittenBytes(s, op);
    assert Eager(ViewOf(s), op, fill)[q][p] == s.mem[Chosen(s, op)];
  }

  lemma WriteSpace(s: State, op: Op, q: nat)
    requires Shaped(s) && Faults(s, op) && q in s.live && q < N_PROC
    requires forall q: nat, p: int :: AlsoMaps(s, op, q, p, Chosen(s, op)) ==> s.mem[Chosen(s, op)] == WrittenBytes(s, op)
    ensures Space(Step(s, op), q) == if q == op.pid then Space(s, q)[op.page := WrittenBytes(s, op)] else Space(s, q)
  {
    WriteEffect(s, op);
    var t := Step(s, op);
    hide Step;
    forall p | p in s.tables[q] && (q != op.pid || p != op.page) ensures t.mem[t.tables[q][p].frame] == s.mem[s.tables[q][p].frame] {
      assert s.tables[q][p].frame == Chosen(s, op) ==> AlsoMaps(s, op, q, p, Chosen(s, op));
    }
    var a, b := Space(t, q), if q == op.pid then Space(s, q)[op.page := WrittenBytes(s, op)] else Space(s, q);
    assert a.Keys == b.Keys;
    assert forall p | p in a :: a[p] == b[p];
    assert a == b;
  }

  // So, while no live process maps the frame that the stack of free frames would give next, a
  // write that changes a byte is one to a copy of its own exactly when the counter of the
  // frame is above 1 or no other live mapping shares it.
  lemma WriteIsPrivateIff(s: State, op: Op, fill: Content)
    requires Shaped(s) && Faults(s, op) && s.mem[Old(s, op)][op.offset] != op.value
    requires |s.free| > 0 ==> forall q: nat, p: int | q in s.live :: !Maps(s, q, p, s.free[0])
    ensures EagerEnabled(ViewOf(s), op)
    ensures ViewOf(Step(s, op)) == Eager(ViewOf(s), op, fill)
      <==> s.counter[Old(s, op)] > 1 || forall q: nat, p: int :: !AlsoMaps(s, op, q, p, Old(s, op))
  {
    WriteIsEagerIff(s, op, fill);
    hide Step;
    hide ViewOf;
    hide Eager;
    var f := Old(s, op);
    assert s.mem[f] != WrittenBytes(s, op);
    if s.counter[f] > 1 {
      forall q: nat, p: int ensures !AlsoMaps(s, op, q, p, Chosen(s, op)) {
        assert q in s.live ==> !Maps(s, q, p, s.free[0]);
      }
    } else {
      assert Chosen(s, op) == f;
      if q: nat, p: int :| AlsoMaps(s, op, q, p, f) {
        assert AlsoMaps(s, op, q, p, Chosen(s, op));
      }
    }
  }
}
