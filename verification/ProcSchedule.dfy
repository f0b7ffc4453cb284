/**
 The lottery of the scheduler: which process each reading of the clock dispatches, how many
 readings dispatch each, and what a dispatch does.
 */
module ProcSchedule {
  import opened Sampling
  import opened ProcModel
  import opened ProcInvariants
  import opened ProcQueues
  import opened ProcRuns

  // ---------- counting clock readings ----------

  lemma {:induction false} MulAtLeast(d: int, z: nat)
    requires d > 0 && z >= 1
    ensures d * z >= d
  {
    if z > 1 {
      MulAtLeast(d, z - 1);
      assert d * z == d * (z - 1) + d;
    }
  }

  lemma ModUnique(v: int, d: int, k: int, r: int)
    requires v == d * k + r && 0 <= r < d
    ensures v % d == r
  {
    var q := v / d;
    assert v == d * q + v % d;
    assert d * (q - k) == d * q - d * k && d * (k - q) == d * k - d * q;
    if q > k {
      MulAtLeast(d, q - k);
    } else if q < k {
      MulAtLeast(d, k - q);
    }
  }

  lemma ModPlus(x: int, d: int)
    requires d > 0
    ensures (x + d) % d == x % d
  {
    assert x == d * (x / d) + x % d;
    assert x + d == d * (x / d + 1) + x % d;
    ModUnique(x + d, d, x / d + 1, x % d);
  }

  predicate Hits(c: int, d: int, low: int, high: int)
    requires d > 0
  {
    low <= c % d < high
  }

  // The readings in a window of d whose remainder lies in an interval.
  ghost function Readings(start: int, d: int, low: int, high: int): set<int>
    requires d > 0
  {
    set c | start <= c < start + d && Hits(c, d, low, high)
  }

  lemma FirstWindow(d: int, low: nat, n: nat)
    requires d > 0 && low + n <= d
    ensures |Readings(0, d, low, low + n)| == n
  {
    var high := low + n;
    forall c | 0 <= c < d ensures Hits(c, d, low, high) <==> Within(c, low, high) {
      ModUnique(c, d, 0, c);
    }
    hide Hits;
    assert Readings(0, d, low, high) == Interval(low, high);
    IntervalSize(low, n);
  }

  // Moving a window on by one loses a reading and gains one with the same remainder.
  lemma NextWindow(start: int, d: int, low: int, high: int)
    requires d > 0
    ensures |Readings(start + 1, d, low, high)| == |Readings(start, d, low, high)|
  {
    ModPlus(start, d);
    assert Hits(start + d, d, low, high) <==> Hits(start, d, low, high);
    hide Hits;
    var before, after := Readings(start, d, low, high), Readings(start + 1, d, low, high);
    if Hits(start, d, low, high) {
      assert start in before && start + d !in before;
      assert after == before - {start} + {start + d};
    } else {
      assert after == before;
    }
  }

  // In every window of d consecutive readings there are as many as the interval is long.
  lemma {:induction false} CountReadings(start: nat, d: int, low: nat, n: nat)
    requires d > 0 && low + n <= d
    ensures |Readings(start, d, low, low + n)| == n
    decreases start
  {
    hide *;
    if start == 0 {
      FirstWindow(d, low, n);
    } else {
      CountReadings(start - 1, d, low, n);
      NextWindow(start - 1, d, low, low + n);
    }
  }

  // ---------- what a clock reading dispatches ----------

  // From the kernel state k, the reading c of the clock makes p run.
  ghost predicate Dispatches(k: Sys, c: nat, p: int)
    requires Shaped(k)
  {
    exists v: Event, t: Sys :: !v.call.TestCall? && v.clock == c && Next(k, v, t) && t.curr == p
  }

  // The tickets of a priority: none without a process.
  function Tickets(k: Sys, i: nat): (n: nat)
    requires Shaped(k) && i <= MAX_PRIO
  {
    if |k.queues[i]| > 0 then i * i + |k.queues[i]| else 0
  }

  // Those of the priorities from 1 up to n.
  function AllTickets(k: Sys, n: nat): (total: nat)
    requires Shaped(k) && n < MAX_PRIO
    decreases n
  {
    if n == 0 then 0 else AllTickets(k, n - 1) + Tickets(k, n)
  }

  lemma {:induction false} TicketsAreWeights(k: Sys, n: nat)
    requires Shaped(k) && n < MAX_PRIO
    ensures Sum(Weights(k)[..n + 1]) == AllTickets(k, n)
    decreases n
  {
    var w := Weights(k);
    PrefixSum(w, n);
    if n == 0 {
      assert w[..0] == [];
    } else {
      TicketsAreWeights(k, n - 1);
    }
  }

  lemma TicketsTotal(k: Sys)
    requires Shaped(k)
    ensures Sum(Weights(k)) == AllTickets(k, MAX_PRIO - 1)
  {
    hide Sum;
    hide AllTickets;
    TicketsAreWeights(k, MAX_PRIO - 1);
    assert Weights(k)[..MAX_PRIO] == Weights(k);
  }

  // A reading dispatches the head of the picked queue, and nobody else.
  lemma PickedHead(k: Sys, c: nat, prio: int)
    requires Inv(k) && RunnableCount(k) > 0 && Picks(k, c, prio)
    ensures 0 <= prio <= MAX_PRIO && k.queues[prio] != []
    ensures forall p :: Dispatches(k, c, p) <==> p == k.queues[prio][0]
  {
    DispatchSafe(k, c, prio);
    var h := k.queues[prio][0];
    hide Inv;
    hide RunnableCount;
    var v, t := Event(WaitCall(0), Err(0, 0), c), RunPriority(k, prio);
    assert Runs(k, v.clock, prio, t);
    assert Halted(k) <==> RunnableCount(k) == 0;
    assert Next(k, v, t) && t.curr == h;
    forall p | Dispatches(k, c, p) ensures p == h {
      var v: Event, t: Sys :| !v.call.TestCall? && v.clock == c && Next(k, v, t) && t.curr == p;
      var i :| Runs(k, v.clock, i, t);
      PickedOnce(k, c, i, prio);
    }
  }

  lemma PickedOnce(k: Sys, c: nat, i: int, j: int)
    requires Shaped(k) && Picks(k, c, i) && Picks(k, c, j)
    ensures i == j
  {
    if k.queues[MAX_PRIO] == [] && RunnableCount(k) != |k.queues[0]| {
      SelectedOnce(Weights(k), c % Sum(Weights(k)), i, j);
    }
  }

  // With a process of the highest priority, every reading dispatches the first of those.
  lemma HighestFirst(k: Sys, c: nat)
    requires Inv(k) && k.queues[MAX_PRIO] != []
    ensures forall p :: Dispatches(k, c, p) <==> p == k.queues[MAX_PRIO][0]
  {
    assert Shaped(k);
    TermBelowSum(Lengths(k), MAX_PRIO);
    assert Picks(k, c, MAX_PRIO);
    PickedHead(k, c, MAX_PRIO);
    hide Inv;
  }

  // With processes of priority 0 only, every reading dispatches the first of them.
  lemma IdleLast(k: Sys, c: nat)
    requires Inv(k) && k.queues[0] != [] && forall i | 1 <= i <= MAX_PRIO :: k.queues[i] == []
    ensures forall p :: Dispatches(k, c, p) <==> p == k.queues[0][0]
  {
    assert Shaped(k);
    var l := Lengths(k);
    SumOfZeros(l, |l|);
    assert l[..|l|] == l;
    assert Picks(k, c, 0);
    PickedHead(k, c, 0);
    hide Inv;
  }

  // Otherwise it is a lottery.
  ghost predicate Lottery(k: Sys)
    requires Shaped(k)
  {
    k.queues[MAX_PRIO] == [] && exists i | 1 <= i < MAX_PRIO :: k.queues[i] != []
  }

  lemma LotteryHasTickets(k: Sys)
    requires Shaped(k) && Lottery(k)
    ensures RunnableCount(k) > 0 && RunnableCount(k) != |k.queues[0]| && Sum(Weights(k)) > 0
  {
    hide Sum;
    var i :| 1 <= i < MAX_PRIO && k.queues[i] != [];
    var l := Lengths(k);
    NoSum(l[..0]);
    TermBelowSum(l, i);
    TermBelowSum(Weights(k), i);
    PrefixSum(l, i);
    SumMonotone(l, 1, i);
    SumMonotone(l, i + 1, |l|);
    PrefixSum(l, 0);
    assert l[..0] == [] && l[..|l|] == l;
  }

  lemma NoSum(l: seq<nat>)
    requires l == []
    ensures Sum(l) == 0
  {
  }

  lemma DrawnHead(k: Sys, c: nat, i: nat)
    requires Inv(k) && Lottery(k) && 1 <= i < MAX_PRIO && k.queues[i] != []
    ensures Sum(Weights(k)) > 0
    ensures Dispatches(k, c, k.queues[i][0]) <==> Selects(Weights(k), c % Sum(Weights(k)), i)
  {
    assert Shaped(k);
    LotteryHasTickets(k);
    var w := Weights(k);
    assert w[..|w|] == w;
    var j := EveryDrawSelects(w, c % Sum(w), |w|);
    assert Picks(k, c, j);
    PickedHead(k, c, j);
    if j != i {
      HeadsDiffer(k, i, j);
      if Selects(w, c % Sum(w), i) {
        SelectedOnce(w, c % Sum(w), i, j);
      }
    }
    hide Inv;
  }

  lemma HeadsDiffer(k: Sys, i: nat, j: nat)
    requires Inv(k) && i <= MAX_PRIO && j <= MAX_PRIO && i != j && k.queues[i] != [] && k.queues[j] != []
    ensures k.queues[i][0] != k.queues[j][0]
  {
    assert k.queues[i][0] in k.queues[i] && k.queues[j][0] in k.queues[j];
    assert Queued(k, i, k.queues[i][0]) && Queued(k, j, k.queues[j][0]);
  }

  // The readings of a window that dispatch p.
  ghost function Wins(k: Sys, start: nat, total: nat, p: int): set<int>
    requires Shaped(k)
  {
    set c: nat | start <= c < start + total && Dispatches(k, c, p)
  }

  // The readings that dispatch the head of queue i are those whose remainder is in an interval.
  lemma TicketInterval(k: Sys, i: nat) returns (low: nat)
    requires Inv(k) && Lottery(k) && 1 <= i < MAX_PRIO && k.queues[i] != []
    ensures var d := AllTickets(k, MAX_PRIO - 1); var n := i * i + |k.queues[i]|;
      && low + n <= d && d > 0
      && forall c: nat :: Dispatches(k, c, k.queues[i][0]) <==> Hits(c, d, low, low + n)
  {
    hide Sum;
    hide AllTickets;
    hide Dispatches;
    assert Shaped(k);
    var w := Weights(k);
    LotteryHasTickets(k);
    TicketsTotal(k);
    PrefixSum(w, i);
    SumMonotone(w, i + 1, |w|);
    assert w[..|w|] == w;
    low := Sum(w[..i]);
    forall c: nat ensures Dispatches(k, c, k.queues[i][0]) <==> Hits(c, Sum(w), low, low + w[i]) {
      DrawnHead(k, c, i);
    }
    hide Inv;
  }

  lemma WinsCount(k: Sys, start: nat, p: int, d: nat, low: nat, n: nat)
    requires Shaped(k) && d > 0 && low + n <= d
    requires forall c: nat :: Dispatches(k, c, p) <==> Hits(c, d, low, low + n)
    ensures |Wins(k, start, d, p)| == n
  {
    hide Dispatches;
    hide Hits;
    assert Wins(k, start, d, p) == Readings(start, d, low, low + n);
    CountReadings(start, d, low, n);
  }

  // Of any consecutive readings of the clock, as many as there are tickets, exactly i * i + n
  // dispatch the first of the n processes of priority i.
  lemma LotteryLaw(k: Sys, start: nat, i: nat)
    requires Inv(k) && Lottery(k) && 1 <= i < MAX_PRIO && k.queues[i] != []
    ensures |Wins(k, start, AllTickets(k, MAX_PRIO - 1), k.queues[i][0])| == i * i + |k.queues[i]|
  {
    assert Shaped(k);
    hide AllTickets;
    hide Dispatches;
    hide Hits;
    hide Wins;
    hide Inv;
    var low := TicketInterval(k, i);
    WinsCount(k, start, k.queues[i][0], AllTickets(k, MAX_PRIO - 1), low, i * i + |k.queues[i]|);
  }

  // Every reading dispatches the first process of one of the priorities 1 to 14.
  lemma LotteryDispatches(k: Sys, c: nat) returns (i: nat)
    requires Inv(k) && Lottery(k)
    ensures 1 <= i < MAX_PRIO && k.queues[i] != []
    ensures forall p :: Dispatches(k, c, p) <==> p == k.queues[i][0]
  {
    assert Shaped(k);
    LotteryHasTickets(k);
    var w := Weights(k);
    assert w[..|w|] == w;
    i := EveryDrawSelects(w, c % Sum(w), |w|);
    PrefixSum(w, i);
    assert Picks(k, c, i);
    PickedHead(k, c, i);
    hide Inv;
  }

  // ---------- what a dispatch does ----------

  // p runs, with what was pending for it handed over, and goes to the back of its queue, in
  // which everybody else moves up by one.
  ghost predicate HasDispatched(k: Sys, t: Sys, p: int)
    requires Shaped(k) && Shaped(t) && Pid(p)
  {
    && t.curr == p && t.last == k.last && t.rings == k.rings && t.exits == k.exits && t.reaps == k.reaps && t.exitErr == k.exitErr
    && t.procs[p] == k.procs[p].(pending := Nothing, out := [])
    && (forall x | 0 <= x < MAX_PROC && x != p :: t.procs[x] == k.procs[x])
    && var i := k.procs[p].prio; var n := |k.queues[i]|;
       && (forall j | 0 <= j <= MAX_PRIO && j != i :: t.queues[j] == k.queues[j])
       && |t.queues[i]| == n > 0 && k.queues[i][0] == p && t.queues[i][n - 1] == p
       && forall m | 1 <= m < n :: t.queues[i][m - 1] == k.queues[i][m]
  }

  lemma DispatchCases(k: Sys, v: Event, t: Sys)
    requires Inv(k) && Next(k, v, t) && !v.call.TestCall?
    ensures Shaped(t)
    ensures if forall p | 0 <= p < MAX_PROC :: k.procs[p].state != Runnable then t == k
            else Pid(t.curr) && Dispatches(k, v.clock, t.curr) && HasDispatched(k, t, t.curr)
  {
    hide RunnableCount;
    hide HasDispatched;
    hide Roles;
    hide Children;
    hide Waiters;
    hide Rendezvous;
    hide Deliveries;
    hide History;
    HaltIffNoneRunnable(k);
    if !Halted(k) {
      var prio :| Runs(k, v.clock, prio, t);
      var p := k.queues[prio][0];
      assert p in k.queues[prio];
      assert Queued(k, prio, p);
      RunsHead(k, t, prio, p);
      assert t.curr == p;
    }
  }

  lemma RunsHead(k: Sys, t: Sys, prio: int, p: int)
    requires Shaped(k) && 0 <= prio <= MAX_PRIO && k.queues[prio] != [] && p == k.queues[prio][0] && Pid(p) && k.procs[p].prio == prio
    requires t == RunPriority(k, prio)
    ensures Shaped(t) && t.curr == p && HasDispatched(k, t, p)
  {
    var q := k.queues[prio];
    assert t.queues[prio] == q[1..] + [q[0]];
    assert forall j | 0 <= j <= MAX_PRIO && j != prio :: t.queues[j] == k.queues[j];
  }
}
