/** The rate-monotonic simulator run_rms() of algorithms.c: dispatch by sorting and
    preempting the CPU with the longest period, and its runs. */
module Rms {
  import opened Sched

  const INT_MAX := 0x7FFF_FFFF

  function Periods(ps: seq<Process>): (ranks: seq<int>)
    ensures |ranks| == |ps| && forall i {:trigger ranks[i]} :: 0 <= i < |ps| ==> ranks[i] == ps[i].period
  {
    seq(|ps|, i requires 0 <= i < |ps| => ps[i].period)
  }

  /** Periods are what the comparisons with -1 and with the largest int take them to be. */
  ghost predicate Periodic(ps: seq<Process>) {
    forall i {:trigger ps[i]} :: 0 <= i < |ps| ==> 0 <= ps[i].period < INT_MAX
  }

  lemma SamePeriods(ps: seq<Process>, qs: seq<Process>)
    requires SameJobs(qs, ps)
    ensures Periods(qs) == Periods(ps) && (Periodic(ps) ==> Periodic(qs))
  {
    forall i | 0 <= i < |ps| ensures qs[i].period == ps[i].period {
      assert SameJob(qs[i], ps[i]);
    }
  }

  // ----- the ready list -----

  predicate Indices(order: seq<int>, n: int) {
    forall k {:trigger order[k]} :: 0 <= k < |order| ==> 0 <= order[k] < n
  }

  /** Entries k - 1 and k are in ascending order. */
  ghost predicate Asc(order: seq<int>, ranks: seq<int>, k: int)
    requires Indices(order, |ranks|) && 1 <= k < |order|
  {
    ranks[order[k - 1]] <= ranks[order[k]]
  }

  /** The first a entries are in ascending order. */
  ghost predicate Sorted(order: seq<int>, ranks: seq<int>, a: int)
    requires Indices(order, |ranks|) && a <= |order|
  {
    forall k {:trigger Asc(order, ranks, k)} :: 1 <= k < a ==> Asc(order, ranks, k)
  }

  lemma {:induction false} SortedPairs(order: seq<int>, ranks: seq<int>, a: int, j: int, k: int)
    requires Indices(order, |ranks|) && a <= |order| && Sorted(order, ranks, a) && 0 <= j <= k < a
    ensures ranks[order[j]] <= ranks[order[k]]
    decreases k - j
  {
    if j < k {
      assert Asc(order, ranks, k);
      SortedPairs(order, ranks, a, j, k - 1);
    }
  }

  ghost predicate SameElements(a: seq<int>, b: seq<int>) {
    multiset(a) == multiset(b)
  }

  /** Collects the arrived READY processes. */
  method BuildReady(p: array<Process>, order: array<int>, now: int) returns (n: int)
    requires order.Length == p.Length && order != p as object
    modifies order
    ensures 0 <= n <= order.Length && Indices(order[..n], p.Length)
    ensures forall i :: 0 <= i < p.Length ==> (Waiting(p[i], now) <==> i in order[..n])
    ensures forall a, b :: 0 <= a < b < n ==> order[a] != order[b]
  {
    n := 0;
    var i := 0;
    while i < p.Length
      invariant 0 <= n <= i <= p.Length && Indices(order[..n], i)
      invariant forall j :: 0 <= j < i ==> (Waiting(p[j], now) <==> j in order[..n])
      invariant forall a, b :: 0 <= a < b < n ==> order[a] != order[b]
    {
      if p[i].state == READY && p[i].arrival_time <= now {
        ghost var before := order[..n];
        order[n] := i;
        assert order[..n + 1] == before + [i];
        n := n + 1;
      }
      i := i + 1;
    }
  }

  /** While entry a, taken out as `key`, moves down, v is the list with the key in the hole
      at h: only the key may be out of order with the entry before it. */
  ghost predicate Sinking(v: seq<int>, ranks: seq<int>, a: int, h: int) {
    && 0 <= h <= a < |v| && Indices(v, |ranks|)
    && (forall k {:trigger Asc(v, ranks, k)} :: 1 <= k <= a && k != h ==> Asc(v, ranks, k))
    && (0 < h < a ==> ranks[v[h - 1]] <= ranks[v[h + 1]])
  }

  /** List s with a hole at h, where the key may go. */
  ghost predicate Hole(s: seq<int>, was: seq<int>, ranks: seq<int>, a: int, h: int, key: int) {
    0 <= h < |s| && Indices(s, |ranks|) && Sinking(s[h := key], ranks, a, h) && SameElements(s[h := key], was)
  }

  function Swapped(v: seq<int>, h: int): seq<int>
    requires 0 < h < |v|
  {
    v[h := v[h - 1]][h - 1 := v[h]]
  }

  /** The entry before the hole is of longer period, and moves up. */
  lemma Sink(v: seq<int>, ranks: seq<int>, a: int, h: int)
    requires Sinking(v, ranks, a, h) && h > 0 && ranks[v[h]] < ranks[v[h - 1]]
    ensures Sinking(Swapped(v, h), ranks, a, h - 1) && SameElements(Swapped(v, h), v)
  {
    var w := Swapped(v, h);
    forall k | 1 <= k <= a && k != h - 1 ensures Asc(w, ranks, k) {
      assert k != h ==> Asc(v, ranks, k);
    }
    if h > 1 {
      assert Asc(v, ranks, h - 1);
    }
  }

  lemma HoleDown(s: seq<int>, was: seq<int>, ranks: seq<int>, a: int, h: int, key: int)
    requires Hole(s, was, ranks, a, h, key) && h > 0 && 0 <= key < |ranks|
    requires ranks[key] < ranks[s[h - 1]]
    ensures Hole(s[h := s[h - 1]], was, ranks, a, h - 1, key)
  {
    Sink(s[h := key], ranks, a, h);
    assert Swapped(s[h := key], h) == s[h := s[h - 1]][h - 1 := key];
  }

  lemma Settle(v: seq<int>, ranks: seq<int>, a: int, h: int)
    requires Sinking(v, ranks, a, h) && (h > 0 ==> ranks[v[h - 1]] <= ranks[v[h]])
    ensures Sorted(v, ranks, a + 1)
  {
    forall k | 1 <= k < a + 1 ensures Asc(v, ranks, k) {
      assert k != h ==> Asc(v, ranks, k);
    }
  }

  lemma HoleFill(s: seq<int>, was: seq<int>, ranks: seq<int>, a: int, h: int, key: int)
    requires Hole(s, was, ranks, a, h, key) && 0 <= key < |ranks|
    requires (h > 0 ==> ranks[s[h - 1]] <= ranks[key])
    ensures SameElements(s[h := key], was) && Indices(s[h := key], |ranks|)
    ensures Sorted(s[h := key], ranks, a + 1)
  {
    Settle(s[h := key], ranks, a, h);
  }

  /** One turn of the sort: entry a moves down past those of longer period. */
  method Insert(p: array<Process>, order: array<int>, a: int, n: int, ghost ranks: seq<int>)
    requires 1 <= a < n <= order.Length && Indices(order[..n], p.Length) && ranks == Periods(p[..])
    requires Sorted(order[..n], ranks, a)
    modifies order
    ensures SameElements(order[..n], old(order[..n]))
    ensures Indices(order[..n], p.Length) && Sorted(order[..n], ranks, a + 1)
  {
    ghost var was := order[..n];
    var key := order[a];
    var b := a - 1;
    assert was[a := key] == was;
    while b >= 0 && p[order[b]].period > p[key].period
      invariant -1 <= b < a && Hole(order[..n], was, ranks, a, b + 1, key)
    {
      ghost var s := order[..n];
      HoleDown(s, was, ranks, a, b + 1, key);
      order[b + 1] := order[b];
      assert order[..n] == s[b + 1 := s[b]];
      b := b - 1;
    }
    ghost var s := order[..n];
    HoleFill(s, was, ranks, a, b + 1, key);
    order[b + 1] := key;
    assert order[..n] == s[b + 1 := key];
  }

  /** The insertion sort: the first n entries in ascending order of period. */
  method SortByPeriod(p: array<Process>, order: array<int>, n: int)
    requires 0 <= n <= order.Length && Indices(order[..n], p.Length)
    modifies order
    ensures SameElements(order[..n], old(order[..n]))
    ensures Indices(order[..n], p.Length) && Sorted(order[..n], Periods(p[..]), n)
    ensures forall j, k :: 0 <= j <= k < n ==> p[order[..n][j]].period <= p[order[..n][k]].period
  {
    ghost var ranks, was := Periods(p[..]), order[..n];
    var a := 1;
    while a < n
      invariant 1 <= a && SameElements(order[..n], was) && Indices(order[..n], p.Length)
      invariant Sorted(order[..n], ranks, if a < n then a else n)
    {
      Insert(p, order, a, n, ranks);
      a := a + 1;
    }
    forall j, k | 0 <= j <= k < n ensures p[order[..n][j]].period <= p[order[..n][k]].period {
      SortedPairs(order[..n], ranks, n, j, k);
    }
  }

  // ----- dispatch -----

  ghost predicate InList(todo: seq<int>, i: int) {
    exists k :: 0 <= k < |todo| && todo[k] == i
  }

  /** The processes in `todo` wait to be considered; all others that wait are behind every
      CPU. */
  ghost predicate Considering(ps: seq<Process>, cs: seq<CPU>, ranks: seq<int>, todo: seq<int>, cycle: int) {
    && Linked(ps, cs, cycle) && |ranks| == |ps| && Indices(todo, |ps|)
    && (forall k {:trigger todo[k]} :: 0 <= k < |todo| ==> Waiting(ps[todo[k]], cycle))
    && (forall j, k :: 0 <= j < k < |todo| ==> todo[j] != todo[k])
    && (forall i, c {:trigger Ahead(ps, cs, ranks, c, i)} ::
        0 <= i < |ps| && Waiting(ps[i], cycle) && !InList(todo, i) && 0 <= c < |cs| ==>
         Ahead(ps, cs, ranks, c, i))
  }

  /** CPU w is idle, or no CPU is and its process has the longest period. */
  ghost predicate WorstCpu(cs: seq<CPU>, ranks: seq<int>, w: int) {
    && 0 <= w < |cs|
    && (cs[w].current_process_id == -1
        || forall c {:trigger cs[c]} :: 0 <= c < |cs| ==>
             0 <= cs[c].current_process_id < |ranks| && 0 <= cs[w].current_process_id < |ranks|
                 && ranks[cs[c].current_process_id] <= ranks[cs[w].current_process_id])
  }

  method FindWorst(p: array<Process>, cpu: array<CPU>) returns (w: int)
    requires cpu.Length > 0 && Periodic(p[..])
    requires forall c :: 0 <= c < cpu.Length ==> -1 <= cpu[c].current_process_id < p.Length
    ensures WorstCpu(cpu[..], Periods(p[..]), w)
  {
    w := -1;
    var worst := -1;
    var i := 0;
    while i < cpu.Length
      invariant 0 <= i <= cpu.Length && -1 <= w < i && (w == -1 <==> i == 0)
      invariant w == -1 ==> worst == -1
      invariant w != -1 ==>
                  cpu[w].current_process_id != -1 && worst == p[cpu[w].current_process_id].period
      invariant forall c :: 0 <= c < i ==>
                  cpu[c].current_process_id != -1 && p[cpu[c].current_process_id].period <= worst
    {
      if cpu[i].current_process_id == -1 {
        return i;
      }
      var running := cpu[i].current_process_id;
      assert 0 <= p[..][running].period;
      if p[running].period > worst {
        worst := p[running].period;
        w := i;
      }
      i := i + 1;
    }
  }

  /** The first of `todo` is placed on an idle CPU, or in the stead of the longest period if
      its own is shorter; either way it has been considered. */
  lemma Considered(ps: seq<Process>, cs: seq<CPU>, ranks: seq<int>, todo: seq<int>, cycle: int, w: int,
                   cpu: CPU)
    requires Considering(ps, cs, ranks, todo, cycle) && todo != [] && WorstCpu(cs, ranks, w)
    requires cpu.current_process_id == todo[0]
    ensures -1 <= cs[w].current_process_id < |ps|
    ensures cs[w].current_process_id == -1 || ranks[todo[0]] < ranks[cs[w].current_process_id] ==>
              Considering(AfterAssign(ps, cs[w].current_process_id, todo[0], w, cycle), cs[w := cpu], ranks, todo[1..],
                          cycle)
              && OnlyDispatched(AfterAssign(ps, cs[w].current_process_id, todo[0], w, cycle), ps)
    ensures cs[w].current_process_id != -1 && ranks[todo[0]] >= ranks[cs[w].current_process_id] ==>
              Considering(ps, cs, ranks, todo[1..], cycle)
  {
    var cand, rest, v := todo[0], todo[1..], cs[w].current_process_id;
    assert CpuOk(ps, cs, w);
    forall i | !InList(rest, i) && i != cand ensures !InList(todo, i) {
      forall k | 0 <= k < |todo| ensures todo[k] != i {
        assert k > 0 ==> rest[k - 1] == todo[k];
      }
    }
    forall k | 0 <= k < |rest| ensures rest[k] == todo[k + 1] && rest[k] != cand && 0 <= rest[k] < |ps| {
    }
    if v == -1 || ranks[cand] < ranks[v] {
      AssignLinked(ps, cs, cycle, w, cand, cpu);
      var qs, ds := AfterAssign(ps, v, cand, w, cycle), cs[w := cpu];
      forall i, c | 0 <= i < |qs| && Waiting(qs[i], cycle) && !InList(rest, i) && 0 <= c < |ds|
        ensures Ahead(qs, ds, ranks, c, i)
      {
        if i != v {
          assert Ahead(ps, cs, ranks, w, i) && Ahead(ps, cs, ranks, c, i);
        }
      }
    } else {
      forall i, c | 0 <= i < |ps| && Waiting(ps[i], cycle) && !InList(rest, i) && 0 <= c < |cs|
        ensures Ahead(ps, cs, ranks, c, i)
      {
        assert i != cand ==> Ahead(ps, cs, ranks, c, i);
      }
    }
  }

  /** Who began to run in this dispatch is not behind any that is still to be considered. */
  ghost predicate NewAhead(ps: seq<Process>, qs: seq<Process>, ranks: seq<int>, todo: seq<int>) {
    && |qs| == |ps| == |ranks| && Indices(todo, |ranks|)
    && forall i, k {:trigger qs[i], todo[k]} ::
         0 <= i < |qs| && 0 <= k < |todo| && qs[i].state == RUNNING && ps[i].state != RUNNING ==>
           ranks[i] <= ranks[todo[k]]
  }

  ghost predicate Ascending(order: seq<int>, ranks: seq<int>) {
    Indices(order, |ranks|) && forall j, k :: 0 <= j <= k < |order| ==> ranks[order[j]] <= ranks[order[k]]
  }

  lemma NewAheadNext(ps: seq<Process>, qs: seq<Process>, rs: seq<Process>, ranks: seq<int>, todo: seq<int>)
    requires NewAhead(ps, qs, ranks, todo) && Ascending(todo, ranks) && todo != [] && |rs| == |qs|
    requires forall i :: 0 <= i < |rs| && rs[i].state == RUNNING ==> qs[i].state == RUNNING || i == todo[0]
    ensures NewAhead(ps, rs, ranks, todo[1..]) && Ascending(todo[1..], ranks)
  {
    var rest := todo[1..];
    forall i, k | 0 <= i < |rs| && 0 <= k < |rest| && rs[i].state == RUNNING && ps[i].state != RUNNING
      ensures ranks[i] <= ranks[rest[k]]
    {
      assert rest[k] == todo[k + 1] && todo[0] == todo[0];
    }
  }

  /** Whom the candidate displaces had been running before. */
  lemma DisplacedRan(ps: seq<Process>, bs: seq<CPU>, qs: seq<Process>, cs: seq<CPU>, ranks: seq<int>, todo: seq<int>,
                     cycle: int, w: int)
    requires Linked(ps, bs, cycle) && Linked(qs, cs, cycle) && NewAhead(ps, qs, ranks, todo) && todo != []
    requires 0 <= w < |cs| && 0 <= cs[w].current_process_id < |qs|
    requires ranks[todo[0]] < ranks[cs[w].current_process_id]
    ensures ps[cs[w].current_process_id].start_time != -1
  {
    var v := cs[w].current_process_id;
    assert CpuOk(qs, cs, w) && todo[0] == todo[0];
    assert ps[v].state == RUNNING && ProcOk(ps, bs, cycle, v);
  }

  /** One candidate of the preemption loop. */
  method Consider(p: array<Process>, cpu: array<CPU>, candidate: int, cycle: int, ghost ranks: seq<int>,
                  ghost todo: seq<int>, ghost ps0: seq<Process>, ghost bs: seq<CPU>)
    requires Placed(ps0, bs, p[..], cpu[..], ranks, cycle) && NewAhead(ps0, p[..], ranks, todo)
    requires Ascending(todo, ranks)
    requires Considering(p[..], cpu[..], ranks, todo, cycle) && todo != [] && candidate == todo[0]
    requires cpu.Length > 0
    requires Periodic(p[..]) && ranks == Periods(p[..])
    modifies p, cpu
    ensures Considering(p[..], cpu[..], ranks, todo[1..], cycle) && OnlyDispatched(p[..], old(p[..]))
    ensures Placed(ps0, bs, p[..], cpu[..], ranks, cycle)
    ensures NewAhead(ps0, p[..], ranks, todo[1..]) && Ascending(todo[1..], ranks)
  {
    ghost var ps, cs := p[..], cpu[..];
    forall c | 0 <= c < |cs| ensures -1 <= cs[c].current_process_id < |ps| {
      assert CpuOk(ps, cs, c);
    }
    var w := FindWorst(p, cpu);
    Considered(ps, cs, ranks, todo, cycle, w, cs[w].(current_process_id := candidate));
    var running := cpu[w].current_process_id;
    if running == -1 || p[candidate].period < p[running].period {
      if running != -1 {
        DisplacedRan(ps0, bs, ps, cs, ranks, todo, cycle, w);
      }
      assert todo[0] == candidate;
      PlacedNext(ps0, bs, ps, cs, ranks, w, candidate, cycle, cs[w].(current_process_id := candidate));
      Assign(p, cpu, w, candidate, cycle, cpu[w].time_quantum_left);
    }
    NewAheadNext(ps0, ps, p[..], ranks, todo);
  }

  /** Busy CPUs are ahead of all that wait. */
  ghost predicate BusyAhead(ps: seq<Process>, cs: seq<CPU>, ranks: seq<int>, cycle: int) {
    forall i, c {:trigger Ahead(ps, cs, ranks, c, i)} ::
        0 <= i < |ps| && Waiting(ps[i], cycle) && 0 <= c < |cs| && cs[c].current_process_id != -1 ==>
          Ahead(ps, cs, ranks, c, i)
  }

  /** The scan for the waiting process of the shortest period, or -1. */
  method PickShortest(p: array<Process>, now: int) returns (best: int)
    requires Periodic(p[..])
    ensures -1 <= best < p.Length
    ensures best == -1 ==> forall i :: 0 <= i < p.Length ==> !Waiting(p[i], now)
    ensures best != -1 ==> Foremost(p[..], Periods(p[..]), best, now)
  {
    best := -1;
    var best_period := INT_MAX;
    for i := 0 to p.Length
      invariant -1 <= best < i
      invariant best_period == if best == -1 then INT_MAX else p[best].period
      invariant best != -1 ==> Waiting(p[best], now)
      invariant forall j :: 0 <= j < i && Waiting(p[j], now) ==> best != -1 && best_period <= p[j].period
    {
      assert p[..][i].period < INT_MAX;
      if p[i].state == READY && p[i].arrival_time <= now && p[i].period < best_period {
        best_period := p[i].period;
        best := i;
      }
    }
  }

  lemma FillOne(ps: seq<Process>, cs: seq<CPU>, ranks: seq<int>, k: int, best: int, cycle: int, cpu: CPU)
    requires Linked(ps, cs, cycle) && UrgentTo(ps, cs, ranks, k, cycle)
    requires BusyAhead(ps, cs, ranks, cycle) && 0 <= k < |cs|
    requires Foremost(ps, ranks, best, cycle) && cpu.current_process_id == best
    requires cs[k].current_process_id == -1
    ensures Linked(AfterAssign(ps, -1, best, k, cycle), cs[k := cpu], cycle)
    ensures OnlyDispatched(AfterAssign(ps, -1, best, k, cycle), ps)
    ensures UrgentTo(AfterAssign(ps, -1, best, k, cycle), cs[k := cpu], ranks, k + 1, cycle)
    ensures BusyAhead(AfterAssign(ps, -1, best, k, cycle), cs[k := cpu], ranks, cycle)
  {
    AssignRanked(ps, cs, ranks, k, best, cycle, cpu);
    var qs, ds := AfterAssign(ps, -1, best, k, cycle), cs[k := cpu];
    forall i, c | 0 <= i < |qs| && Waiting(qs[i], cycle) && 0 <= c < |ds| && ds[c].current_process_id != -1
      ensures Ahead(qs, ds, ranks, c, i)
    {
      if c != k {
        assert Ahead(ps, cs, ranks, c, i);
      } else {
        assert ranks[best] <= ranks[i];
      }
    }
  }

  lemma StillAhead(ps: seq<Process>, cs: seq<CPU>, ranks: seq<int>, k: int, cycle: int)
    requires UrgentTo(ps, cs, ranks, k, cycle) && BusyAhead(ps, cs, ranks, cycle) && 0 <= k < |cs|
    requires cs[k].current_process_id != -1
    ensures UrgentTo(ps, cs, ranks, k + 1, cycle)
  {
    forall i, c | 0 <= i < |ps| && Waiting(ps[i], cycle) && 0 <= c < k + 1
      ensures Ahead(ps, cs, ranks, c, i)
    {
      assert c == k ==> Ahead(ps, cs, ranks, k, i);
    }
  }

  /** Who runs goes on running. */
  ghost predicate StillRun(ps: seq<Process>, qs: seq<Process>) {
    |qs| == |ps| && forall i {:trigger qs[i]} :: 0 <= i < |ps| && ps[i].state == RUNNING ==> qs[i].state == RUNNING
  }

  method FillCpu(p: array<Process>, cpu: array<CPU>, i: int, cycle: int, ghost ranks: seq<int>,
                 ghost ps: seq<Process>, ghost bs: seq<CPU>)
    requires 0 <= i < cpu.Length && Linked(p[..], cpu[..], cycle) && OnlyDispatched(p[..], ps)
    requires Placed(ps, bs, p[..], cpu[..], ranks, cycle) && StillRun(ps, p[..])
    requires Periodic(ps) && ranks == Periods(ps)
    requires UrgentTo(p[..], cpu[..], ranks, i, cycle) && BusyAhead(p[..], cpu[..], ranks, cycle)
    modifies p, cpu
    ensures Linked(p[..], cpu[..], cycle) && OnlyDispatched(p[..], ps)
    ensures Placed(ps, bs, p[..], cpu[..], ranks, cycle) && StillRun(ps, p[..])
    ensures UrgentTo(p[..], cpu[..], ranks, i + 1, cycle) && BusyAhead(p[..], cpu[..], ranks, cycle)
  {
    ghost var qs, cs := p[..], cpu[..];
    if cpu[i].current_process_id != -1 {
      StillAhead(qs, cs, ranks, i, cycle);
      return;
    }
    DispatchedTotals(qs, ps);
    SamePeriods(ps, qs);
    var best := PickShortest(p, cycle);
    if best != -1 {
      FillOne(qs, cs, ranks, i, best, cycle, cs[i].(current_process_id := best));
      PlacedNext(ps, bs, qs, cs, ranks, i, best, cycle, cs[i].(current_process_id := best));
      Assign(p, cpu, i, best, cycle, cpu[i].time_quantum_left);
      DispatchedTrans(p[..], qs, ps);
    } else {
      assert forall j :: 0 <= j < |qs| ==> !Waiting(qs[j], cycle);
    }
  }

  /** The second assignment loop: idle CPUs take what waits, shortest period first. */
  method FillIdle(p: array<Process>, cpu: array<CPU>, cycle: int, ghost ranks: seq<int>)
    requires Linked(p[..], cpu[..], cycle) && Periodic(p[..]) && ranks == Periods(p[..])
    requires BusyAhead(p[..], cpu[..], ranks, cycle)
    modifies p, cpu
    ensures Linked(p[..], cpu[..], cycle) && OnlyDispatched(p[..], old(p[..]))
    ensures UrgentBy(p[..], cpu[..], ranks, cycle)
    ensures Placed(old(p[..]), old(cpu[..]), p[..], cpu[..], ranks, cycle) && StillRun(old(p[..]), p[..])
  {
    ghost var ps, bs := p[..], cpu[..];
    DispatchedItself(ps);
    PlacedNone(ps, bs, ranks, cycle);
    var i := 0;
    while i < cpu.Length
      invariant Placed(ps, bs, p[..], cpu[..], ranks, cycle) && StillRun(ps, p[..])
      invariant 0 <= i <= cpu.Length && Linked(p[..], cpu[..], cycle) && OnlyDispatched(p[..], ps)
      invariant UrgentTo(p[..], cpu[..], ranks, i, cycle) && BusyAhead(p[..], cpu[..], ranks, cycle)
    {
      FillCpu(p, cpu, i, cycle, ranks, ps, bs);
      i := i + 1;
    }
  }

  lemma CountTwice(s: seq<int>, j: int, k: int)
    requires 0 <= j < k < |s| && s[j] == s[k]
    ensures multiset(s)[s[j]] >= 2
  {
    assert s == s[..j] + [s[j]] + s[j + 1..k] + [s[k]] + s[k + 1..];
  }

  lemma {:induction false} CountOnce(s: seq<int>, x: int)
    requires forall a, b :: 0 <= a < b < |s| ==> s[a] != s[b]
    ensures multiset(s)[x] <= 1
  {
    if s != [] {
      CountOnce(s[1..], x);
      assert s == [s[0]] + s[1..];
      if x == s[0] {
        assert x !in s[1..];
      }
    }
  }

  lemma BeginConsidering(ps: seq<Process>, cs: seq<CPU>, ranks: seq<int>, ready: seq<int>, sorted: seq<int>,
                         cycle: int)
    requires Linked(ps, cs, cycle) && |ranks| == |ps| && Indices(ready, |ps|) && Indices(sorted, |ps|)
    requires SameElements(sorted, ready)
    requires forall i :: 0 <= i < |ps| ==> (Waiting(ps[i], cycle) <==> i in ready)
    requires forall a, b :: 0 <= a < b < |ready| ==> ready[a] != ready[b]
    ensures Considering(ps, cs, ranks, sorted, cycle)
  {
    forall k | 0 <= k < |sorted| ensures Waiting(ps[sorted[k]], cycle) {
      assert sorted[k] in multiset(sorted);
      assert sorted[k] in ready;
    }
    forall i | 0 <= i < |ps| && Waiting(ps[i], cycle) ensures InList(sorted, i) {
      assert i in multiset(ready);
      assert i in sorted;
    }
    forall j, k | 0 <= j < k < |sorted| ensures sorted[j] != sorted[k] {
      if sorted[j] == sorted[k] {
        CountTwice(sorted, j, k);
        CountOnce(ready, sorted[j]);
      }
    }
  }

  /** Sorting and preempting: afterwards nothing that waits is ahead of a CPU, and processes
      gave way only to strictly shorter periods. */
  method Preempt(p: array<Process>, cpu: array<CPU>, cycle: int, ghost ranks: seq<int>)
    requires Linked(p[..], cpu[..], cycle) && Periodic(p[..]) && ranks == Periods(p[..])
    requires cpu.Length > 0
    modifies p, cpu
    ensures Linked(p[..], cpu[..], cycle) && OnlyDispatched(p[..], old(p[..]))
    ensures UrgentBy(p[..], cpu[..], ranks, cycle)
    ensures Placed(old(p[..]), old(cpu[..]), p[..], cpu[..], ranks, cycle)
  {
    ghost var ps, bs := p[..], cpu[..];
    var order := new int[p.Length](_ => 0);
    var n := BuildReady(p, order, cycle);
    ghost var ready := order[..n];
    SortByPeriod(p, order, n);
    var sorted := order[..n];
    BeginConsidering(ps, cpu[..], ranks, ready, sorted, cycle);
    DispatchedItself(ps);
    PlacedNone(ps, bs, ranks, cycle);
    assert sorted[0..] == sorted;
    var r := 0;
    while r < n
      invariant 0 <= r <= n == |sorted| && Considering(p[..], cpu[..], ranks, sorted[r..], cycle)
      invariant OnlyDispatched(p[..], ps) && Placed(ps, bs, p[..], cpu[..], ranks, cycle)
      invariant NewAhead(ps, p[..], ranks, sorted[r..]) && Ascending(sorted[r..], ranks)
    {
      ghost var qs := p[..];
      DispatchedTotals(qs, ps);
      SamePeriods(ps, qs);
      Consider(p, cpu, sorted[r], cycle, ranks, sorted[r..], ps, bs);
      DispatchedTrans(p[..], qs, ps);
      assert sorted[r..][1..] == sorted[r + 1..];
      r := r + 1;
    }
    forall i, c | 0 <= i < |p[..]| && Waiting(p[..][i], cycle) && 0 <= c < |cpu[..]|
      ensures Ahead(p[..], cpu[..], ranks, c, i)
    {
      assert !InList(sorted[r..], i);
    }
  }

  // ----- the run -----

  lemma UrgentIsBusyAhead(ps: seq<Process>, cs: seq<CPU>, ranks: seq<int>, cycle: int)
    requires UrgentBy(ps, cs, ranks, cycle)
    ensures BusyAhead(ps, cs, ranks, cycle)
  {
  }

  lemma TickedSame(rs: seq<Process>, qs: seq<Process>, cycle: int)
    requires |qs| == |rs| && forall i :: 0 <= i < |rs| ==> qs[i] == Ticked(rs[i], cycle)
    ensures OnlyDispatched(qs, TickedAll(rs, cycle))
  {
    assert qs == TickedAll(rs, cycle);
  }

  /** One turn of the main loop. */
  method Cycle(p: array<Process>, cpu: array<CPU>, now: int, ghost ps0: seq<Process>, ghost g: seq<seq<int>>,
               ghost finished: int, ghost full: int, ghost part: int)
    returns (row: seq<int>, finishing: int, ghost full': int, ghost part': int)
    requires now == |g| && Progress(ps0, p[..], cpu[..], g, finished, full, part) && Periodic(ps0)
    requires ChartUrgentBy(g, p[..], Periods(ps0))
    modifies p, cpu
    ensures Progress(ps0, p[..], cpu[..], g + [row], finished + finishing, full', part')
    ensures ChartUrgentBy(g + [row], p[..], Periods(ps0))
  {
    ghost var ps, bs, ranks := p[..], cpu[..], Periods(ps0);
    SamePeriods(ps0, ps);
    Preempt(p, cpu, now, ranks);
    ghost var ms, ns := p[..], cpu[..];
    DispatchedTotals(ms, ps);
    SamePeriods(ps, ms);
    UrgentIsBusyAhead(ms, cpu[..], ranks, now);
    FillIdle(p, cpu, now, ranks);
    ghost var rs, cs := p[..], cpu[..];
    DispatchedTrans(rs, ms, ps);
    PlacedTwice(ps, bs, ms, ns, rs, cs, ranks, now);
    UrgentByNoIdling(rs, cs, ranks, now);
    row := RowOf(cpu[..]);
    finishing := Tick(p, cpu, now);
    ghost var qs, ds := p[..], cpu[..];
    TickedSame(rs, qs, now);
    ChartDispatched(g, ps, rs, |cs|);
    ChartUrgentGrows(g, ps, rs, cs, qs, ranks);
    full', part' := ProgressNext(ps0, ps, bs, rs, cs, qs, ds, ranks, g, finished, full, part);
  }

  /** run_rms(): the chart accounts for every process exactly; in every cycle the CPUs ran
      the pending processes of the shortest periods; the run ends within the makespan bound. */
  method RunRms(p: array<Process>, cpus: int) returns (gantt: seq<seq<int>>)
    requires cpus > 0 && Fresh(p[..]) && Periodic(p[..])
    modifies p
    ensures SameJobs(p[..], old(p[..]))
    ensures forall i :: 0 <= i < p.Length ==> p[i].state == FINISHED && p[i].remaining_time == 0
    ensures Chart(gantt, p[..], cpus) && ChartUrgentBy(gantt, p[..], Periods(p[..])) && AllBegun(gantt, p[..])
    ensures |gantt| <= MakespanBound(old(p[..]), cpus)
  {
    ghost var ps0 := p[..];
    var cpu := new CPU[cpus](i => CPU(i, -1, 0));
    var now, completed := 0, 0;
    gantt := [];
    ghost var full, part := 0, 0;
    ProgressStart(ps0, cpu[..]);
    BoundSign(ps0, cpus);
    while completed < p.Length
      invariant cpu.Length == cpus && now == |gantt| <= MakespanBound(ps0, cpus)
      invariant Progress(ps0, p[..], cpu[..], gantt, completed, full, part)
      invariant ChartUrgentBy(gantt, p[..], Periods(ps0))
      decreases MakespanBound(ps0, cpus) - now
    {
      StillBelow(ps0, p[..], cpu[..], gantt, completed, full, part);
      var row, finishing;
      row, finishing, full, part := Cycle(p, cpu, now, ps0, gantt, completed, full, part);
      gantt := gantt + [row];
      completed := completed + finishing;
      now := now + 1;
    }
    AllDone(ps0, p[..], cpu[..], gantt, completed, full, part);
    SamePeriods(ps0, p[..]);
  }
}
