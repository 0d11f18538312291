/** The preemptive global EDF simulator of edf.c: its dispatch, its run, the
    makespan bound, and its optimality on one CPU. */
module Edf {
  import opened Sched

  /** Deadlines at or above this are never picked. */
  const SENTINEL := 100000

  // ----- dispatch -----

  /** Index of the arrived READY process with the earliest deadline, the first of
      equals, or -1. */
  method PickEarliestDeadline(p: array<Process>, cycle: int) returns (chosen: int)
    ensures -1 <= chosen < p.Length
    ensures chosen == -1 <==> forall i :: 0 <= i < p.Length && Waiting(p[i], cycle) ==> p[i].deadline >= SENTINEL
    ensures chosen != -1 ==>
      && Waiting(p[chosen], cycle) && p[chosen].deadline < SENTINEL
      && (forall i :: 0 <= i < p.Length && Waiting(p[i], cycle) ==> p[chosen].deadline <= p[i].deadline)
      && (forall i :: 0 <= i < chosen && Waiting(p[i], cycle) ==> p[chosen].deadline < p[i].deadline)
  {
    chosen := -1;
    var earliest := SENTINEL;
    for i := 0 to p.Length
      invariant -1 <= chosen < i
      invariant earliest == if chosen == -1 then SENTINEL else p[chosen].deadline
      invariant chosen != -1 ==> Waiting(p[chosen], cycle) && p[chosen].deadline < SENTINEL
      invariant forall j :: 0 <= j < i && Waiting(p[j], cycle) ==> earliest <= p[j].deadline
      invariant chosen != -1 ==> forall j :: 0 <= j < chosen && Waiting(p[j], cycle) ==>
                  earliest < p[j].deadline
    {
      if p[i].state != READY || p[i].arrival_time > cycle {
        continue;
      }
      if p[i].deadline < earliest {
        earliest := p[i].deadline;
        chosen := i;
      }
    }
  }

  ghost predicate Plausible(ps: seq<Process>) {
    forall i {:trigger ps[i]} :: 0 <= i < |ps| ==> ps[i].deadline < SENTINEL
  }

  function Deadlines(ps: seq<Process>): (ranks: seq<int>)
    ensures |ranks| == |ps|
    ensures forall i {:trigger ranks[i]} :: 0 <= i < |ps| ==> ranks[i] == ps[i].deadline
  {
    seq(|ps|, i requires 0 <= i < |ps| => ps[i].deadline)
  }

  lemma SameDeadlines(ps: seq<Process>, qs: seq<Process>)
    requires SameJobs(ps, qs)
    ensures Deadlines(ps) == Deadlines(qs)
  {
    forall i | 0 <= i < |ps| ensures Deadlines(ps)[i] == Deadlines(qs)[i] {
      assert SameJob(ps[i], qs[i]);
    }
  }

  /** The foremost waiting process, or -1 when none waits. */
  ghost predicate Next(ps: seq<Process>, ranks: seq<int>, best: int, cycle: int) {
    if best == -1 then forall i {:trigger ps[i]} :: 0 <= i < |ps| ==> !Waiting(ps[i], cycle)
    else Foremost(ps, ranks, best, cycle)
  }

  /** A deadline that is never picked. */
  predicate Beyond(p: Process) {
    p.deadline >= SENTINEL
  }

  /** Processes that wait with such a deadline are as they were. */
  ghost predicate Passed(ps0: seq<Process>, ps: seq<Process>) {
    && |ps| == |ps0|
    && forall i {:trigger ps[i]} :: 0 <= i < |ps| && Beyond(ps0[i]) && ps0[i].state == READY ==> ps[i] == ps0[i]
  }

  /** Where the dispatch loop stands before CPU k: `best` is what to place next. */
  ghost predicate DispatchState(ps: seq<Process>, cs: seq<CPU>, ranks: seq<int>, k: int, best: int, cycle: int) {
    && 0 <= k <= |cs| && Linked(ps, cs, cycle) && ranks == Deadlines(ps)
    && (best == -1 || (0 <= best < |ps| && Waiting(ps[best], cycle) && !Beyond(ps[best])))
    && (Plausible(ps) ==> UrgentTo(ps, cs, ranks, k, cycle) && Next(ps, ranks, best, cycle))
  }

  lemma PlausibleDispatched(qs: seq<Process>, ps: seq<Process>)
    requires OnlyDispatched(qs, ps)
    ensures (Plausible(ps) <==> Plausible(qs)) && Deadlines(qs) == Deadlines(ps)
  {
    forall i | 0 <= i < |qs| ensures qs[i].deadline == ps[i].deadline {
      assert SameProgress(qs[i], ps[i]);
    }
    assert Deadlines(qs) == Deadlines(ps);
    assert forall i :: 0 <= i < |qs| ==> Deadlines(qs)[i] == Deadlines(ps)[i];
  }

  /** CPU k goes to `best`, which displaces only a later deadline. */
  lemma AssignEarlier(ps: seq<Process>, cs: seq<CPU>, ranks: seq<int>, k: int, best: int, cycle: int, cpu: CPU)
    requires DispatchState(ps, cs, ranks, k, best, cycle) && k < |cs| && best != -1
    requires cpu.current_process_id == best && -1 <= cs[k].current_process_id < |ps|
    requires cs[k].current_process_id != -1 ==> ps[best].deadline < ps[cs[k].current_process_id].deadline
    ensures Linked(AfterAssign(ps, cs[k].current_process_id, best, k, cycle), cs[k := cpu], cycle)
    ensures OnlyDispatched(AfterAssign(ps, cs[k].current_process_id, best, k, cycle), ps)
    ensures Passed(ps, AfterAssign(ps, cs[k].current_process_id, best, k, cycle))
    ensures Plausible(ps) ==>
              UrgentTo(AfterAssign(ps, cs[k].current_process_id, best, k, cycle), cs[k := cpu], ranks, k + 1, cycle)
  {
    assert CpuOk(ps, cs, k);
    AssignLinked(ps, cs, cycle, k, best, cpu);
    if Plausible(ps) {
      AssignRanked(ps, cs, ranks, k, best, cycle, cpu);
    }
  }

  /** One iteration of the dispatch loop. */
  method DispatchCpu(p: array<Process>, cpu: array<CPU>, i: int, best: int, cycle: int, ghost ranks: seq<int>,
                     ghost ps0: seq<Process>, ghost bs: seq<CPU>)
    returns (next: int)
    requires Placed(ps0, bs, p[..], cpu[..], ranks, cycle) && SameFrom(bs, cpu[..], i)
    requires DispatchState(p[..], cpu[..], ranks, i, best, cycle) && i < cpu.Length && best != -1
    modifies p, cpu
    ensures DispatchState(p[..], cpu[..], ranks, i + 1, next, cycle) && OnlyDispatched(p[..], old(p[..]))
    ensures Passed(old(p[..]), p[..])
    ensures Placed(ps0, bs, p[..], cpu[..], ranks, cycle) && SameFrom(bs, cpu[..], i + 1)
  {
    ghost var ps, cs := p[..], cpu[..];
    var running := cpu[i].current_process_id;
    assert CpuOk(ps, cs, i) && cs[i] == bs[i] && CpuOk(ps0, bs, i);
    assert running != -1 ==> ProcOk(ps0, bs, cycle, running);
    if running == -1 || p[best].deadline < p[running].deadline {
      AssignEarlier(ps, cs, ranks, i, best, cycle, cs[i].(current_process_id := best));
      PlacedNext(ps0, bs, ps, cs, ranks, i, best, cycle, cs[i].(current_process_id := best));
      Assign(p, cpu, i, best, cycle, cpu[i].time_quantum_left);
      PlausibleDispatched(p[..], ps);
      next := PickEarliestDeadline(p, cycle);
    } else {
      next := best;
      if Plausible(ps) {
        StillUrgent(ps, cs, ranks, i, best, cycle);
      }
      DispatchedItself(ps);
    }
  }

  /** The dispatch phase of a cycle: no arrived process waits while a CPU is idle or runs
      one with a later deadline, except that deadlines at the sentinel or above are passed
      over; and a process gives way only to a strictly earlier deadline. */
  method Dispatch(p: array<Process>, cpu: array<CPU>, cycle: int)
    requires Linked(p[..], cpu[..], cycle)
    modifies p, cpu
    ensures Linked(p[..], cpu[..], cycle) && OnlyDispatched(p[..], old(p[..])) && Passed(old(p[..]), p[..])
    ensures Plausible(old(p[..])) ==> Plausible(p[..]) && UrgentBy(p[..], cpu[..], Deadlines(p[..]), cycle)
    ensures Placed(old(p[..]), old(cpu[..]), p[..], cpu[..], Deadlines(p[..]), cycle)
  {
    ghost var ps, bs, ranks := p[..], cpu[..], Deadlines(p[..]);
    DispatchedItself(ps);
    PlacedNone(ps, bs, ranks, cycle);
    var best := PickEarliestDeadline(p, cycle);
    var i := 0;
    while i < cpu.Length && best != -1
      invariant DispatchState(p[..], cpu[..], ranks, i, best, cycle)
      invariant OnlyDispatched(p[..], ps) && Passed(ps, p[..])
      invariant Placed(ps, bs, p[..], cpu[..], ranks, cycle) && SameFrom(bs, cpu[..], i)
    {
      ghost var before := p[..];
      best := DispatchCpu(p, cpu, i, best, cycle, ranks, ps, bs);
      DispatchedTrans(p[..], before, ps);
      i := i + 1;
    }
    PlausibleDispatched(p[..], ps);
  }

  // ----- optimality on one CPU -----

  /** How many of the unit slots lo .. hi - 1 the assignment gives to job i. */
  ghost function Slots(sigma: seq<int>, i: int, lo: int, hi: int): int
    requires 0 <= lo
    decreases hi - lo
  {
    if hi <= lo then 0
    else Slots(sigma, i, lo, hi - 1) + if hi - 1 < |sigma| && sigma[hi - 1] == i then 1 else 0
  }

  lemma {:induction false} SlotsHead(sigma: seq<int>, i: int, lo: int, hi: int)
    requires 0 <= lo < hi
    ensures Slots(sigma, i, lo, hi) == (if lo < |sigma| && sigma[lo] == i then 1 else 0) + Slots(sigma, i, lo + 1, hi)
    decreases hi - lo
  {
    if lo + 1 < hi {
      SlotsHead(sigma, i, lo, hi - 1);
    }
  }

  lemma {:induction false} SlotsUpdate(sigma: seq<int>, s: int, v: int, i: int, lo: int, hi: int)
    requires 0 <= lo && 0 <= s < |sigma|
    ensures Slots(sigma[s := v], i, lo, hi) == Slots(sigma, i, lo, hi)
      + if lo <= s < hi then (if v == i then 1 else 0) - (if sigma[s] == i then 1 else 0) else 0
    decreases hi - lo
  {
    if lo < hi {
      SlotsUpdate(sigma, s, v, i, lo, hi - 1);
    }
  }

  lemma {:induction false} SlotsFound(sigma: seq<int>, i: int, lo: int, hi: int) returns (s: int)
    requires 0 <= lo && Slots(sigma, i, lo, hi) > 0
    ensures lo <= s < hi && s < |sigma| && sigma[s] == i
    decreases hi - lo
  {
    if hi - 1 < |sigma| && sigma[hi - 1] == i {
      s := hi - 1;
    } else {
      s := SlotsFound(sigma, i, lo, hi - 1);
    }
  }

  ghost function Later(a: int, b: int): int {
    if a < b then b else a
  }

  /** From cycle t on, the assignment gives job i what it still needs, after its
      arrival and before its deadline. */
  ghost predicate Served(p: Process, i: int, t: int, sigma: seq<int>)
    requires 0 <= t
  {
    p.remaining_time > 0 ==> Slots(sigma, i, Later(t, p.arrival_time), p.deadline) >= p.remaining_time
  }

  ghost predicate Feasible(ps: seq<Process>, t: int, sigma: seq<int>)
    requires 0 <= t
  {
    forall i {:trigger Served(ps[i], i, t, sigma)} :: 0 <= i < |ps| ==> Served(ps[i], i, t, sigma)
  }

  /** Some assignment of unit time slots meets every deadline. */
  ghost predicate Schedulable(ps: seq<Process>) {
    exists sigma :: Feasible(ps, 0, sigma)
  }

  ghost predicate OnTime(ps: seq<Process>) {
    forall i {:trigger ps[i]} :: 0 <= i < |ps| && ps[i].state == FINISHED ==>
      ps[i].completion_time <= ps[i].deadline
  }

  /** The exchange: slot t goes to job e, and whoever had it gets e's next slot. */
  ghost function Exchange(sigma: seq<int>, t: int, s: int): seq<int>
    requires 0 <= t <= s < |sigma|
  {
    sigma[s := sigma[t]][t := sigma[s]]
  }

  lemma ExchangeServes(p: Process, q: Process, i: int, e: Process, ei: int, t: int, s: int, sigma: seq<int>)
    requires 0 <= t <= s < |sigma| && sigma[s] == ei && s < e.deadline
    requires Served(p, i, t, sigma) && i != ei && SameJob(q, p) && q.remaining_time == p.remaining_time
    requires p.remaining_time > 0 && p.arrival_time <= t ==> e.deadline <= p.deadline
    ensures Served(q, i, t + 1, Exchange(sigma, t, s))
  {
    if q.remaining_time > 0 {
      var lo := Later(t, p.arrival_time);
      var one := sigma[s := sigma[t]];
      var lo' := Later(t + 1, p.arrival_time);
      SlotsUpdate(sigma, s, sigma[t], i, lo', p.deadline);
      SlotsUpdate(one, t, sigma[s], i, lo', p.deadline);
      if lo' != lo {
        SlotsHead(sigma, i, t, p.deadline);
      }
    }
  }

  lemma ExchangeServesSelf(p: Process, q: Process, ei: int, t: int, s: int, sigma: seq<int>)
    requires 0 <= t <= s < |sigma| && sigma[s] == ei && s < p.deadline
    requires Served(p, ei, t, sigma) && SameJob(q, p) && q.remaining_time == p.remaining_time - 1 >= 0
    requires p.arrival_time <= t
    ensures Served(q, ei, t + 1, Exchange(sigma, t, s))
  {
    var one := sigma[s := sigma[t]];
    SlotsUpdate(sigma, s, sigma[t], ei, t, p.deadline);
    SlotsUpdate(one, t, sigma[s], ei, t, p.deadline);
    SlotsHead(Exchange(sigma, t, s), ei, t, p.deadline);
  }

  /** The exchange argument: running the most urgent job for one cycle keeps the
      rest schedulable, and a job that finishes does so by its deadline. */
  lemma KeepFeasible(ps: seq<Process>, cs: seq<CPU>, qs: seq<Process>, t: int, sigma: seq<int>)
    returns (sigma': seq<int>)
    requires |cs| == 1 && t >= 0 && Linked(ps, cs, t)
    requires UrgentBy(ps, cs, Deadlines(ps), t) && Feasible(ps, t, sigma) && OnTime(ps)
    requires |qs| == |ps| && forall i {:trigger qs[i]} :: 0 <= i < |ps| ==> qs[i] == Ticked(ps[i], t)
    ensures Feasible(qs, t + 1, sigma') && OnTime(qs)
  {
    var e := cs[0].current_process_id;
    assert CpuOk(ps, cs, 0);
    if e == -1 {
      sigma' := sigma;
      forall i | 0 <= i < |qs| ensures Served(qs[i], i, t + 1, sigma) && qs[i] == ps[i] {
        assert ProcOk(ps, cs, t, i) && Served(ps[i], i, t, sigma);
        assert !Ahead(ps, cs, Deadlines(ps), 0, i);
      }
    } else {
      assert ProcOk(ps, cs, t, e) && Served(ps[e], e, t, sigma);
      var s := SlotsFound(sigma, e, t, ps[e].deadline);
      sigma' := Exchange(sigma, t, s);
      forall i | 0 <= i < |qs| ensures Served(qs[i], i, t + 1, sigma') {
        assert ProcOk(ps, cs, t, i) && Served(ps[i], i, t, sigma) && qs[i] == Ticked(ps[i], t);
        if i == e {
          ExchangeServesSelf(ps[e], qs[e], e, t, s, sigma);
        } else {
          assert ps[i].state == RUNNING ==> i == e;
          assert ps[i].remaining_time > 0 && ps[i].arrival_time <= t ==>
              Waiting(ps[i], t) && Ahead(ps, cs, Deadlines(ps), 0, i);
          ExchangeServes(ps[i], qs[i], i, ps[e], e, t, s, sigma);
        }
      }
      forall i | 0 <= i < |qs| && qs[i].state == FINISHED ensures qs[i].completion_time <= qs[i].deadline {
        assert ProcOk(ps, cs, t, i) && qs[i] == Ticked(ps[i], t);
        assert ps[i].state == RUNNING ==> i == e;
      }
    }
  }

  // ----- the chart as an assignment -----

  ghost function Column(g: seq<seq<int>>): (sigma: seq<int>)
    requires forall t :: 0 <= t < |g| ==> |g[t]| == 1
    ensures |sigma| == |g|
  {
    seq(|g|, t requires 0 <= t < |g| => g[t][0])
  }

  lemma {:induction false} ColumnRan(g: seq<seq<int>>, i: int, lo: int, hi: int)
    requires 0 <= lo && hi <= |g| && forall t :: 0 <= t < |g| ==> |g[t]| == 1
    ensures Slots(Column(g), i, lo, hi) == Ran(g, i, lo, hi)
    decreases hi - lo
  {
    if lo < hi {
      ColumnRan(g, i, lo, hi - 1);
      assert i in g[hi - 1] <==> g[hi - 1][0] == i;
    }
  }

  lemma {:induction false} SlotsMonotone(sigma: seq<int>, i: int, lo: int, mid: int, hi: int)
    requires 0 <= lo && mid <= hi
    ensures Slots(sigma, i, lo, mid) <= Slots(sigma, i, lo, hi)
    decreases hi - mid
  {
    if mid < hi {
      SlotsMonotone(sigma, i, lo, mid, hi - 1);
    }
  }

  lemma {:induction false} RanSplit(g: seq<seq<int>>, i: int, lo: int, mid: int, hi: int)
    requires 0 <= lo <= mid <= hi <= |g|
    ensures Ran(g, i, lo, hi) == Ran(g, i, lo, mid) + Ran(g, i, mid, hi)
    decreases hi - mid
  {
    if mid < hi {
      RanSplit(g, i, lo, mid, hi - 1);
    }
  }

  /** A finished process got its whole burst between arrival and completion. */
  lemma RanBetween(p: Process, g: seq<seq<int>>, i: int)
    requires Accounted(p, g, i) && p.state == FINISHED && p.remaining_time == 0
    requires p.arrival_time < p.completion_time
    ensures Ran(g, i, p.arrival_time, p.completion_time) == p.burst_time
  {
    RanSplit(g, i, 0, p.arrival_time, |g|);
    RanSplit(g, i, p.arrival_time, p.completion_time, |g|);
    RanNone(g, i, 0, p.arrival_time);
    RanNone(g, i, p.completion_time, |g|);
  }

  /** A run that meets every deadline is itself a feasible assignment. */
  lemma MetImpliesSchedulable(ps0: seq<Process>, ps: seq<Process>, g: seq<seq<int>>)
    requires Fresh(ps0) && SameJobs(ps, ps0) && Chart(g, ps, 1) && OnTime(ps)
    requires forall i {:trigger ps[i]} :: 0 <= i < |ps| ==>
               ps[i].state == FINISHED && ps[i].remaining_time == 0
    ensures Schedulable(ps0)
  {
    forall t | 0 <= t < |g| ensures |g[t]| == 1 {
      assert Row(g[t], |ps|, 1);
    }
    var sigma := Column(g);
    forall i | 0 <= i < |ps0| ensures Served(ps0[i], i, 0, sigma) {
      var p := ps[i];
      assert SameJob(p, ps0[i]) && Accounted(p, g, i);
      RanBetween(p, g, i);
      ColumnRan(g, i, p.arrival_time, p.completion_time);
      SlotsMonotone(sigma, i, p.arrival_time, p.completion_time, p.deadline);
    }
    assert Feasible(ps0, 0, sigma);
  }

  // ----- the run -----

  /** In every cycle the CPUs ran the pending processes with the earliest deadlines. */
  ghost predicate ChartUrgent(g: seq<seq<int>>, ps: seq<Process>) {
    ChartUrgentBy(g, ps, Deadlines(ps))
  }

  /** What holds between cycles, |g| of which are over. */
  ghost predicate RunState(ps0: seq<Process>, ps: seq<Process>, cs: seq<CPU>, g: seq<seq<int>>, finished: int,
                           full: int, part: int) {
    Progress(ps0, ps, cs, g, finished, full, part) && Plausible(ps) && ChartUrgent(g, ps)
  }

  /** One CPU: while the rest can be scheduled, everything so far was on time. */
  ghost predicate OnTrack(ps: seq<Process>, cpus: int, cycle: int, sigma: seq<int>)
    requires cycle >= 0
  {
    cpus == 1 ==> Feasible(ps, cycle, sigma) && OnTime(ps)
  }

  /** Beyond the sentinel a process is in no cycle of the chart. */
  ghost predicate NeverRan(ps0: seq<Process>, g: seq<seq<int>>) {
    forall t, i {:trigger i in g[t]} :: 0 <= t < |g| && 0 <= i < |ps0| && Beyond(ps0[i]) ==> i !in g[t]
  }

  /** What holds between cycles whatever the deadlines. */
  ghost predicate Going(ps0: seq<Process>, ps: seq<Process>, cs: seq<CPU>, g: seq<seq<int>>, finished: int) {
    && |cs| > 0 && Linked(ps, cs, |g|) && SameJobs(ps, ps0) && finished == Finished(ps)
    && Passed(ps0, ps) && NeverRan(ps0, g)
  }

  lemma StartGoing(ps: seq<Process>, cs: seq<CPU>)
    requires Fresh(ps) && |cs| > 0 && forall c :: 0 <= c < |cs| ==> cs[c].current_process_id == -1
    ensures Going(ps, ps, cs, [], 0)
  {
    ProgressStart(ps, cs);
  }

  lemma StartState(ps: seq<Process>, cs: seq<CPU>)
    requires Fresh(ps) && Plausible(ps) && |cs| > 0
    requires forall c :: 0 <= c < |cs| ==> cs[c].current_process_id == -1
    ensures RunState(ps, ps, cs, [], 0, 0, 0)
  {
    ProgressStart(ps, cs);
  }

  /** A cycle after its dispatch and its tick. */
  lemma NextState(ps0: seq<Process>, ps: seq<Process>, bs: seq<CPU>, rs: seq<Process>, cs: seq<CPU>, qs: seq<Process>,
                  ds: seq<CPU>,
                  g: seq<seq<int>>, finished: int, full: int, part: int) returns (full': int, part': int)
    requires RunState(ps0, ps, bs, g, finished, full, part) && |bs| == |cs| == |ds|
    requires Linked(rs, cs, |g|) && OnlyDispatched(rs, ps) && Plausible(rs) && UrgentBy(rs, cs, Deadlines(rs), |g|)
    requires Placed(ps, bs, rs, cs, Deadlines(rs), |g|)
    requires Linked(qs, ds, |g| + 1) && SameJobs(qs, rs)
    requires |qs| == |rs| && forall i {:trigger qs[i]} :: 0 <= i < |rs| ==> qs[i] == Ticked(rs[i], |g|)
    requires Left(qs) <= Left(rs) && (AllBusy(cs) ==> Left(qs) == Left(rs) - |cs|)
    ensures RunState(ps0, qs, ds, g + [RowOf(cs)], finished + Finished(qs) - Finished(rs), full', part')
  {
    var ts := TickedAll(rs, |g|);
    assert qs == ts;
    forall i | 0 <= i < |qs| ensures SameProgress(qs[i], ts[i]) {
    }
    ChartDispatched(g, ps, rs, |cs|);
    DispatchedTotals(rs, ps);
    SameDeadlines(rs, ps);
    SameDeadlines(qs, rs);
    UrgentByNoIdling(rs, cs, Deadlines(rs), |g|);
    ChartUrgentGrows(g, ps, rs, cs, qs, Deadlines(ps));
    full', part' := ProgressNext(ps0, ps, bs, rs, cs, qs, ds, Deadlines(rs), g, finished, full, part);
    assert Plausible(qs) by {
      forall i | 0 <= i < |qs| ensures qs[i].deadline < SENTINEL {
        assert SameJob(qs[i], rs[i]);
      }
    }
  }

  lemma FeasibleDispatched(ps: seq<Process>, rs: seq<Process>, t: int, sigma: seq<int>)
    requires t >= 0 && OnlyDispatched(rs, ps) && Feasible(ps, t, sigma) && OnTime(ps)
    ensures Feasible(rs, t, sigma) && OnTime(rs)
  {
    forall i | 0 <= i < |rs| ensures Served(rs[i], i, t, sigma) {
      assert SameProgress(rs[i], ps[i]) && Served(ps[i], i, t, sigma);
    }
    forall i | 0 <= i < |rs| && rs[i].state == FINISHED ensures rs[i].completion_time <= rs[i].deadline {
      assert SameProgress(rs[i], ps[i]);
    }
  }

  lemma GoingNext(ps0: seq<Process>, ps: seq<Process>, bs: seq<CPU>, rs: seq<Process>, cs: seq<CPU>,
                  qs: seq<Process>, ds: seq<CPU>, g: seq<seq<int>>, finished: int)
    requires Fresh(ps0) && Going(ps0, ps, bs, g, finished) && |bs| == |cs| == |ds|
    requires Linked(rs, cs, |g|) && OnlyDispatched(rs, ps) && Passed(ps, rs)
    requires Linked(qs, ds, |g| + 1) && SameJobs(qs, rs)
    requires |qs| == |rs| && forall i {:trigger qs[i]} :: 0 <= i < |rs| ==> qs[i] == Ticked(rs[i], |g|)
    ensures Going(ps0, qs, ds, g + [RowOf(cs)], finished + Finished(qs) - Finished(rs))
  {
    var h := g + [RowOf(cs)];
    DispatchedTotals(rs, ps);
    SameJobsTrans(qs, rs, ps);
    SameJobsTrans(qs, ps, ps0);
    RowOk(rs, cs, |g|);
    forall t, i | 0 <= t < |h| && 0 <= i < |ps0| && Beyond(ps0[i]) ensures i !in h[t] {
      assert rs[i] == ps[i] == ps0[i];
      assert t < |g| ==> i !in g[t];
    }
    forall i | 0 <= i < |qs| && Beyond(ps0[i]) && ps0[i].state == READY ensures qs[i] == ps0[i] {
      assert rs[i] == ps[i] == ps0[i] && qs[i] == Ticked(rs[i], |g|);
    }
  }

  /** While a process beyond the sentinel is in the table the run is not over. */
  lemma NotOver(ps0: seq<Process>, ps: seq<Process>, cs: seq<CPU>, g: seq<seq<int>>, finished: int)
    requires Fresh(ps0) && Going(ps0, ps, cs, g, finished) && !Plausible(ps0)
    ensures finished < |ps|
  {
    var i :| 0 <= i < |ps0| && ps0[i].deadline >= SENTINEL;
    assert ps[i] == ps0[i];
    FinishedBound(ps);
  }

  /** Whether the loop of run_edf() is over, and what it never touched. */
  lemma CyclesEnd(ps0: seq<Process>, ps: seq<Process>, cs: seq<CPU>, g: seq<seq<int>>, finished: int, full: int,
                  part: int)
    requires Fresh(ps0) && Going(ps0, ps, cs, g, finished)
    requires Plausible(ps0) ==> RunState(ps0, ps, cs, g, finished, full, part)
    ensures finished >= |ps| <==> forall i {:trigger ps[i]} :: 0 <= i < |ps| ==> ps[i].state == FINISHED
    ensures !Plausible(ps0) ==> finished < |ps|
    ensures Plausible(ps0) && finished < |ps| ==> |g| < MakespanBound(ps0, |cs|)
    ensures forall i {:trigger ps[i]} :: 0 <= i < |ps| && Beyond(ps0[i]) ==> ps[i] == ps0[i]
  {
    FinishedBound(ps);
    if !Plausible(ps0) {
      NotOver(ps0, ps, cs, g, finished);
    } else if finished < |ps| {
      StillBelow(ps0, ps, cs, g, finished, full, part);
    }
  }

  /** One turn of the main loop: dispatch, show the row, advance the clock. */
  method Cycle(p: array<Process>, cpu: array<CPU>, cycle: int, ghost ps0: seq<Process>, ghost g: seq<seq<int>>,
               ghost finished: int, ghost full: int, ghost part: int, ghost sigma: seq<int>)
    returns (row: seq<int>, finishing: int, ghost full': int, ghost part': int, ghost sigma': seq<int>)
    requires cycle == |g| && Fresh(ps0) && Going(ps0, p[..], cpu[..], g, finished)
    requires Plausible(ps0) ==> RunState(ps0, p[..], cpu[..], g, finished, full, part)
    requires Plausible(ps0) && Schedulable(ps0) ==> OnTrack(p[..], cpu.Length, cycle, sigma)
    modifies p, cpu
    ensures Going(ps0, p[..], cpu[..], g + [row], finished + finishing)
    ensures Plausible(ps0) ==> RunState(ps0, p[..], cpu[..], g + [row], finished + finishing, full', part')
    ensures Plausible(ps0) && Schedulable(ps0) ==> OnTrack(p[..], cpu.Length, cycle + 1, sigma')
  {
    ghost var ps, bs := p[..], cpu[..];
    Dispatch(p, cpu, cycle);
    ghost var rs, cs := p[..], cpu[..];
    row := RowOf(cpu[..]);
    finishing := Tick(p, cpu, cycle);
    ghost var qs, ds := p[..], cpu[..];
    assert forall i :: 0 <= i < |rs| ==> qs[i] == Ticked(rs[i], |g|);
    GoingNext(ps0, ps, bs, rs, cs, qs, ds, g, finished);
    full', part', sigma' := full, part, sigma;
    if Plausible(ps0) {
      full', part' := NextState(ps0, ps, bs, rs, cs, qs, ds, g, finished, full, part);
      if Schedulable(ps0) && |cs| == 1 {
        FeasibleDispatched(ps, rs, cycle, sigma);
        sigma' := KeepFeasible(rs, cs, qs, cycle, sigma);
      }
    }
  }

  /** run_edf(): the chart it prints accounts for every process exactly; in every
      cycle the CPUs ran the most urgent pending processes; the run ends within the
      makespan bound; and on one CPU it misses a deadline only if every assignment
      of unit time slots does. */
  method RunEdf(p: array<Process>, cpus: int) returns (gantt: seq<seq<int>>)
    requires cpus > 0 && Fresh(p[..]) && Plausible(p[..])
    modifies p
    ensures SameJobs(p[..], old(p[..]))
    ensures forall i :: 0 <= i < p.Length ==> p[i].state == FINISHED && p[i].remaining_time == 0
    ensures Chart(gantt, p[..], cpus)
    ensures ChartUrgent(gantt, p[..]) && AllBegun(gantt, p[..])
    ensures |gantt| <= MakespanBound(old(p[..]), cpus)
    ensures cpus == 1 ==> (OnTime(p[..]) <==> Schedulable(old(p[..])))
  {
    ghost var ps0 := p[..];
    var cpu := new CPU[cpus](i => CPU(i, -1, 0));
    var cycle, finished := 0, 0;
    gantt := [];
    ghost var full, part := 0, 0;
    ghost var sigma: seq<int> := [];
    StartState(ps0, cpu[..]);
    StartGoing(ps0, cpu[..]);
    BoundSign(ps0, cpus);
    if Schedulable(ps0) {
      sigma :| Feasible(ps0, 0, sigma);
    }
    while finished < p.Length
      invariant cpu.Length == cpus && cycle == |gantt| <= MakespanBound(ps0, cpus)
      invariant RunState(ps0, p[..], cpu[..], gantt, finished, full, part)
      invariant Going(ps0, p[..], cpu[..], gantt, finished)
      invariant Schedulable(ps0) ==> OnTrack(p[..], cpus, cycle, sigma)
      decreases MakespanBound(ps0, cpus) - cycle
    {
      StillBelow(ps0, p[..], cpu[..], gantt, finished, full, part);
      var row, finishing;
      row, finishing, full, part, sigma := Cycle(p, cpu, cycle, ps0, gantt, finished, full, part, sigma);
      gantt := gantt + [row];
      finished := finished + finishing;
      cycle := cycle + 1;
    }
    AllDone(ps0, p[..], cpu[..], gantt, finished, full, part);
    if cpus == 1 && OnTime(p[..]) {
      MetImpliesSchedulable(ps0, p[..], gantt);
    }
  }

  /** The first cycles of run_edf(), at most `limit` of them; `over` says whether its loop has
      ended.  With all deadlines below the sentinel it is over within the makespan bound;
      otherwise never, whatever the limit: a process at the sentinel or above is not touched. */
  method RunCycles(p: array<Process>, cpus: int, limit: nat) returns (gantt: seq<seq<int>>, over: bool)
    requires cpus > 0 && Fresh(p[..])
    modifies p
    ensures SameJobs(p[..], old(p[..]))
    ensures over <==> forall i :: 0 <= i < p.Length ==> p[i].state == FINISHED
    ensures |gantt| <= limit && (!over ==> |gantt| == limit)
    ensures Plausible(old(p[..])) && MakespanBound(old(p[..]), cpus) <= limit ==> over
    ensures !Plausible(old(p[..])) ==> !over
    ensures forall i :: 0 <= i < p.Length && Beyond(old(p[i])) ==> p[i] == old(p[i])
    ensures NeverRan(old(p[..]), gantt)
  {
    ghost var ps0 := p[..];
    var cpu := new CPU[cpus](i => CPU(i, -1, 0));
    var cycle, finished := 0, 0;
    gantt := [];
    ghost var full, part := 0, 0;
    ghost var sigma: seq<int> := [];
    StartGoing(ps0, cpu[..]);
    if Plausible(ps0) {
      StartState(ps0, cpu[..]);
      BoundSign(ps0, cpus);
      if Schedulable(ps0) {
        sigma :| Feasible(ps0, 0, sigma);
      }
    }
    while finished < p.Length && cycle < limit
      invariant cpu.Length == cpus && cycle == |gantt| <= limit
      invariant Going(ps0, p[..], cpu[..], gantt, finished)
      invariant Plausible(ps0) ==> RunState(ps0, p[..], cpu[..], gantt, finished, full, part)
      invariant Plausible(ps0) && Schedulable(ps0) ==> OnTrack(p[..], cpus, cycle, sigma)
      decreases limit - cycle
    {
      var row, finishing;
      row, finishing, full, part, sigma := Cycle(p, cpu, cycle, ps0, gantt, finished, full, part, sigma);
      gantt := gantt + [row];
      finished := finished + finishing;
      cycle := cycle + 1;
    }
    over := finished >= p.Length;
    CyclesEnd(ps0, p[..], cpu[..], gantt, finished, full, part);
    assert forall i :: 0 <= i < p.Length ==> p[i] == p[..][i];
  }
}
