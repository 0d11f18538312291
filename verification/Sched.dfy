/** Processes, CPUs and Gantt charts of the multiprocessor simulators (types.h of
    the scheduling project), and the part of their behaviour that does not depend
    on the policy: the tick that advances every busy CPU by one cycle. */
module Sched {
  datatype State = READY | RUNNING | FINISHED

  /** The union of what the simulators keep: `deadline` is for EDF, `period` for RMS and
      `priority_level` for MLFQ. */
  datatype Process = Process(
    id: int, arrival_time: int, burst_time: int, remaining_time: int, deadline: int, period: int,
    priority_level: int, state: State, completion_time: int, start_time: int, cpu_id: int)

  /** `current_process_id` is an index into the process table, or -1 when idle. */
  datatype CPU = CPU(id: int, current_process_id: int, time_quantum_left: int)

  /** What no simulator ever changes about a process. */
  ghost predicate SameJob(a: Process, b: Process) {
    && a.id == b.id && a.arrival_time == b.arrival_time && a.burst_time == b.burst_time && a.deadline == b.deadline
    && a.period == b.period
  }

  ghost predicate SameJobs(ps: seq<Process>, qs: seq<Process>) {
    |ps| == |qs| && forall i {:trigger SameJob(ps[i], qs[i])} :: 0 <= i < |ps| ==> SameJob(ps[i], qs[i])
  }

  /** What choosing who runs leaves alone. */
  ghost predicate SameProgress(a: Process, b: Process) {
    && SameJob(a, b) && a.remaining_time == b.remaining_time && a.completion_time == b.completion_time
    && (a.state == FINISHED <==> b.state == FINISHED)
  }

  ghost predicate OnlyDispatched(ps: seq<Process>, qs: seq<Process>) {
    |ps| == |qs| && forall i {:trigger SameProgress(ps[i], qs[i])} :: 0 <= i < |ps| ==> SameProgress(ps[i], qs[i])
  }

  lemma DispatchedItself(ps: seq<Process>)
    ensures OnlyDispatched(ps, ps)
  {
  }

  lemma DispatchedTrans(a: seq<Process>, b: seq<Process>, c: seq<Process>)
    requires OnlyDispatched(a, b) && OnlyDispatched(b, c)
    ensures OnlyDispatched(a, c)
  {
    forall i | 0 <= i < |a| ensures SameProgress(a[i], c[i]) {
      assert SameProgress(a[i], b[i]) && SameProgress(b[i], c[i]);
    }
  }

  lemma SameJobsTrans(a: seq<Process>, b: seq<Process>, c: seq<Process>)
    requires SameJobs(a, b) && SameJobs(b, c)
    ensures SameJobs(a, c)
  {
    forall i | 0 <= i < |a| ensures SameJob(a[i], c[i]) {
      assert SameJob(a[i], b[i]) && SameJob(b[i], c[i]);
    }
  }

  /** Total work left. */
  ghost function Left(ps: seq<Process>): int {
    if ps == [] then 0 else Left(ps[..|ps| - 1]) + ps[|ps| - 1].remaining_time
  }

  ghost function Finished(ps: seq<Process>): int {
    if ps == [] then 0 else Finished(ps[..|ps| - 1]) + if ps[|ps| - 1].state == FINISHED then 1 else 0
  }

  lemma {:induction false} DispatchedTotals(ps: seq<Process>, qs: seq<Process>)
    requires OnlyDispatched(ps, qs)
    ensures SameJobs(ps, qs) && Left(ps) == Left(qs) && Finished(ps) == Finished(qs)
  {
    forall i | 0 <= i < |ps| ensures SameJob(ps[i], qs[i]) {
      assert SameProgress(ps[i], qs[i]);
    }
    if ps != [] {
      var pf, qf := ps[..|ps| - 1], qs[..|ps| - 1];
      forall i | 0 <= i < |pf| ensures SameProgress(pf[i], qf[i]) {
        assert SameProgress(ps[i], qs[i]);
      }
      DispatchedTotals(pf, qf);
      assert SameProgress(ps[|ps| - 1], qs[|ps| - 1]);
    }
  }

  /** A table as the driver program sets it up. */
  ghost predicate Fresh(ps: seq<Process>) {
    forall i :: 0 <= i < |ps| ==>
      && ps[i].arrival_time >= 0 && ps[i].burst_time >= 1 && ps[i].remaining_time == ps[i].burst_time
      && ps[i].state == READY && ps[i].start_time == -1
  }

  // ----- CPUs and processes point at each other -----

  ghost predicate CpuOk(ps: seq<Process>, cs: seq<CPU>, c: int)
    requires 0 <= c < |cs|
  {
    var i := cs[c].current_process_id;
    i == -1 || (0 <= i < |ps| && ps[i].state == RUNNING && ps[i].cpu_id == c)
  }

  /** A process between cycle - 1 and cycle. */
  ghost predicate ProcOk(ps: seq<Process>, cs: seq<CPU>, cycle: int, i: int)
    requires 0 <= i < |ps|
  {
    var p := ps[i];
    && 0 <= p.remaining_time <= p.burst_time && p.arrival_time >= 0
    && (p.state == FINISHED <==> p.remaining_time == 0)
    && (p.state == RUNNING ==> 0 <= p.cpu_id < |cs| && cs[p.cpu_id].current_process_id == i && p.arrival_time <= cycle)
    && (p.state == RUNNING ==> p.start_time != -1)
  }

  ghost predicate Linked(ps: seq<Process>, cs: seq<CPU>, cycle: int) {
    && 0 <= cycle && (forall c {:trigger CpuOk(ps, cs, c)} :: 0 <= c < |cs| ==> CpuOk(ps, cs, c))
    && (forall i {:trigger ProcOk(ps, cs, cycle, i)} :: 0 <= i < |ps| ==> ProcOk(ps, cs, cycle, i))
  }

  predicate Waiting(p: Process, cycle: int) {
    p.state == READY && p.arrival_time <= cycle
  }

  /** Process `best` takes over CPU c at `cycle`. */
  function Started(p: Process, c: int, cycle: int): Process {
    p.(state := RUNNING, cpu_id := c, start_time := if p.start_time == -1 then cycle else p.start_time)
  }

  /** The table after CPU c has been given to `best`, displacing its process if any. */
  function AfterAssign(ps: seq<Process>, running: int, best: int, c: int, cycle: int): seq<Process>
    requires 0 <= best < |ps| && -1 <= running < |ps|
  {
    var qs := if running == -1 then ps else ps[running := ps[running].(state := READY)];
    qs[best := Started(qs[best], c, cycle)]
  }

  lemma AssignLinked(ps: seq<Process>, cs: seq<CPU>, cycle: int, c: int, best: int, cpu: CPU)
    requires Linked(ps, cs, cycle) && 0 <= c < |cs| && 0 <= best < |ps| && Waiting(ps[best], cycle)
    requires cpu.current_process_id == best && -1 <= cs[c].current_process_id < |ps|
    ensures Linked(AfterAssign(ps, cs[c].current_process_id, best, c, cycle), cs[c := cpu], cycle)
    ensures OnlyDispatched(AfterAssign(ps, cs[c].current_process_id, best, c, cycle), ps)
  {
    var qs, ds := AfterAssign(ps, cs[c].current_process_id, best, c, cycle), cs[c := cpu];
    assert CpuOk(ps, cs, c);
    assert ProcOk(ps, cs, cycle, best);
    forall d | 0 <= d < |ds| ensures CpuOk(qs, ds, d) {
      assert CpuOk(ps, cs, d);
    }
    forall i | 0 <= i < |qs| ensures ProcOk(qs, ds, cycle, i) {
      assert ProcOk(ps, cs, cycle, i);
    }
  }

  /** Gives CPU c to process `best`, for `quantum` cycles where the policy counts them. */
  method Assign(p: array<Process>, cpu: array<CPU>, c: int, best: int, cycle: int, quantum: int)
    requires 0 <= c < cpu.Length && 0 <= best < p.Length && -1 <= cpu[c].current_process_id < p.Length
    modifies p, cpu
    ensures p[..] == AfterAssign(old(p[..]), old(cpu[c]).current_process_id, best, c, cycle)
    ensures cpu[..] == old(cpu[..])[c := old(cpu[c]).(current_process_id := best, time_quantum_left := quantum)]
  {
    var running := cpu[c].current_process_id;
    if running != -1 {
      p[running] := p[running].(state := READY);
    }
    cpu[c] := cpu[c].(current_process_id := best, time_quantum_left := quantum);
    p[best] := p[best].(state := RUNNING, cpu_id := c);
    if p[best].start_time == -1 {
      p[best] := p[best].(start_time := cycle);
    }
  }

  // ----- what a dispatch may do -----

  /** The process on a CPU gives way only to one of strictly lower rank. */
  predicate GivesWay(ranks: seq<int>, was: int, now: int) {
    now == was || was == -1 || (0 <= was < |ranks| && 0 <= now < |ranks| && ranks[now] < ranks[was])
  }

  /** A process that runs for the first time has this cycle as its start. */
  predicate Dated(p: Process, q: Process, cycle: int) {
    q.start_time == if p.start_time == -1 && q.state == RUNNING then cycle else p.start_time
  }

  /** From tables ps and bs a dispatch has come to qs and cs. */
  ghost predicate Placed(ps: seq<Process>, bs: seq<CPU>, qs: seq<Process>, cs: seq<CPU>, ranks: seq<int>, cycle: int) {
    && Linked(ps, bs, cycle) && |qs| == |ps| == |ranks| && |cs| == |bs|
    && (forall c {:trigger cs[c]} {:trigger bs[c]} :: 0 <= c < |cs| ==>
         GivesWay(ranks, bs[c].current_process_id, cs[c].current_process_id))
    && forall i {:trigger qs[i]} {:trigger ps[i]} :: 0 <= i < |ps| ==> Dated(ps[i], qs[i], cycle)
  }

  lemma PlacedNone(ps: seq<Process>, bs: seq<CPU>, ranks: seq<int>, cycle: int)
    requires Linked(ps, bs, cycle) && |ranks| == |ps|
    ensures Placed(ps, bs, ps, bs, ranks, cycle)
  {
    forall i | 0 <= i < |ps| ensures Dated(ps[i], ps[i], cycle) {
      assert ProcOk(ps, bs, cycle, i);
    }
  }

  /** One more process placed; whom it displaces had run before this cycle. */
  lemma PlacedNext(ps: seq<Process>, bs: seq<CPU>, qs: seq<Process>, cs: seq<CPU>, ranks: seq<int>, k: int, best: int,
                   cycle: int, cpu: CPU)
    requires Placed(ps, bs, qs, cs, ranks, cycle) && 0 <= k < |cs| && 0 <= best < |qs| && Waiting(qs[best], cycle)
    requires cpu.current_process_id == best && -1 <= cs[k].current_process_id < |qs|
    requires cs[k].current_process_id != -1 ==>
               ranks[best] < ranks[cs[k].current_process_id] && ps[cs[k].current_process_id].start_time != -1
    ensures Placed(ps, bs, AfterAssign(qs, cs[k].current_process_id, best, k, cycle), cs[k := cpu], ranks, cycle)
  {
    var rs, ds := AfterAssign(qs, cs[k].current_process_id, best, k, cycle), cs[k := cpu];
    forall c | 0 <= c < |ds| ensures GivesWay(ranks, bs[c].current_process_id, ds[c].current_process_id) {
      assert GivesWay(ranks, bs[c].current_process_id, cs[c].current_process_id);
    }
    forall i | 0 <= i < |ps| ensures Dated(ps[i], rs[i], cycle) {
      assert Dated(ps[i], qs[i], cycle);
    }
  }

  /** The CPUs from k on are as they were. */
  ghost predicate SameFrom(bs: seq<CPU>, cs: seq<CPU>, k: int) {
    |cs| == |bs| && forall c {:trigger cs[c]} :: 0 <= c < |cs| && k <= c ==> cs[c] == bs[c]
  }

  /** Two dispatches in a row, the second of which displaces nobody. */
  lemma PlacedTwice(ps: seq<Process>, bs: seq<CPU>, ms: seq<Process>, ns: seq<CPU>, qs: seq<Process>, cs: seq<CPU>,
                    ranks: seq<int>, cycle: int)
    requires Placed(ps, bs, ms, ns, ranks, cycle) && Placed(ms, ns, qs, cs, ranks, cycle)
    requires forall i {:trigger qs[i]} :: 0 <= i < |ms| && ms[i].state == RUNNING ==> qs[i].state == RUNNING
    ensures Placed(ps, bs, qs, cs, ranks, cycle)
  {
    forall c | 0 <= c < |cs| ensures GivesWay(ranks, bs[c].current_process_id, cs[c].current_process_id) {
      assert GivesWay(ranks, bs[c].current_process_id, ns[c].current_process_id);
      assert GivesWay(ranks, ns[c].current_process_id, cs[c].current_process_id);
    }
    forall i | 0 <= i < |ps| ensures Dated(ps[i], qs[i], cycle) {
      assert Dated(ps[i], ms[i], cycle) && Dated(ms[i], qs[i], cycle);
    }
  }

  // ----- one tick -----

  function Ticked(p: Process, cycle: int): Process {
    if p.state != RUNNING then p
    else if p.remaining_time == 1 then p.(remaining_time := 0, state := FINISHED, completion_time := cycle + 1)
    else p.(remaining_time := p.remaining_time - 1)
  }

  ghost function Work(ps: seq<Process>): int {
    if ps == [] then 0 else Work(ps[..|ps| - 1]) + ps[|ps| - 1].burst_time
  }

  lemma {:induction false} UpdateTotals(ps: seq<Process>, i: int, q: Process)
    requires 0 <= i < |ps|
    ensures Left(ps[i := q]) == Left(ps) - ps[i].remaining_time + q.remaining_time
    ensures Finished(ps[i := q]) == Finished(ps)
              - (if ps[i].state == FINISHED then 1 else 0) + (if q.state == FINISHED then 1 else 0)
  {
    var last := |ps| - 1;
    if i == last {
      assert ps[i := q][..last] == ps[..last];
    } else {
      UpdateTotals(ps[..last], i, q);
      assert ps[i := q][..last] == ps[..last][i := q];
    }
  }

  lemma {:induction false} FinishedBound(ps: seq<Process>)
    ensures 0 <= Finished(ps) <= |ps|
    ensures Finished(ps) == |ps| <==> forall i :: 0 <= i < |ps| ==> ps[i].state == FINISHED
  {
    if ps != [] {
      FinishedBound(ps[..|ps| - 1]);
      assert forall i :: 0 <= i < |ps| - 1 ==> ps[..|ps| - 1][i] == ps[i];
    }
  }

  lemma {:induction false} LeftWork(ps: seq<Process>)
    requires forall i :: 0 <= i < |ps| ==> 0 <= ps[i].remaining_time <= ps[i].burst_time
    ensures 0 <= Left(ps) <= Work(ps)
  {
    if ps != [] {
      LeftWork(ps[..|ps| - 1]);
    }
  }

  lemma {:induction false} FreshTotals(ps: seq<Process>)
    requires Fresh(ps)
    ensures Left(ps) == Work(ps) && Finished(ps) == 0
  {
    if ps != [] {
      FreshTotals(ps[..|ps| - 1]);
    }
  }

  lemma {:induction false} SameJobsWork(ps: seq<Process>, qs: seq<Process>)
    requires SameJobs(ps, qs)
    ensures Work(ps) == Work(qs)
  {
    if ps != [] {
      var pf, qf := ps[..|ps| - 1], qs[..|ps| - 1];
      forall i | 0 <= i < |pf| ensures SameJob(pf[i], qf[i]) {
        assert SameJob(ps[i], qs[i]);
      }
      SameJobsWork(pf, qf);
      assert SameJob(ps[|ps| - 1], qs[|ps| - 1]);
    }
  }

  // ----- Gantt charts -----

  /** How many of the cycles lo .. hi - 1 ran process i. */
  ghost function Ran(g: seq<seq<int>>, i: int, lo: int, hi: int): int
    requires 0 <= lo && hi <= |g|
    decreases hi - lo
  {
    if hi <= lo then 0 else Ran(g, i, lo, hi - 1) + if i in g[hi - 1] then 1 else 0
  }

  lemma {:induction false} RanPrefix(g: seq<seq<int>>, row: seq<int>, i: int, lo: int, hi: int)
    requires 0 <= lo && hi <= |g|
    ensures Ran(g + [row], i, lo, hi) == Ran(g, i, lo, hi)
    decreases hi - lo
  {
    if lo < hi {
      RanPrefix(g, row, i, lo, hi - 1);
    }
  }

  lemma {:induction false} RanNone(g: seq<seq<int>>, i: int, lo: int, hi: int)
    requires 0 <= lo && hi <= |g| && forall t :: lo <= t < hi ==> i !in g[t]
    ensures Ran(g, i, lo, hi) == 0
    decreases hi - lo
  {
    if lo < hi {
      RanNone(g, i, lo, hi - 1);
    }
  }

  /** The chart's account of process i up to cycle |g|: it ran only after arriving
      and before completing, for the time that has left its remaining_time. */
  ghost predicate Accounted(p: Process, g: seq<seq<int>>, i: int) {
    && p.arrival_time >= 0
    && (forall t :: 0 <= t < |g| && i in g[t] ==> p.arrival_time <= t)
    && Ran(g, i, 0, |g|) == p.burst_time - p.remaining_time
    && (p.state == FINISHED ==>
          && 1 <= p.completion_time <= |g| && i in g[p.completion_time - 1]
          && forall t :: p.completion_time <= t < |g| ==> i !in g[t])
  }

  ghost predicate Row(row: seq<int>, np: int, cpus: int) {
    && |row| == cpus
    && (forall c :: 0 <= c < cpus ==> -1 <= row[c] < np)
    && (forall c, d :: 0 <= c < d < cpus && row[c] != -1 ==> row[c] != row[d])
  }

  /** A chart of the whole run: one process per CPU and one CPU per process in each
      cycle, and every process accounted for. */
  ghost predicate Chart(g: seq<seq<int>>, ps: seq<Process>, cpus: int) {
    && (forall t {:trigger Row(g[t], |ps|, cpus)} :: 0 <= t < |g| ==> Row(g[t], |ps|, cpus))
    && (forall i {:trigger Accounted(ps[i], g, i)} :: 0 <= i < |ps| ==> Accounted(ps[i], g, i))
  }

  function RowOf(cs: seq<CPU>): (row: seq<int>)
    ensures |row| == |cs|
  {
    seq(|cs|, c requires 0 <= c < |cs| => cs[c].current_process_id)
  }

  lemma RowOk(ps: seq<Process>, cs: seq<CPU>, cycle: int)
    requires Linked(ps, cs, cycle)
    ensures Row(RowOf(cs), |ps|, |cs|)
    ensures forall i :: 0 <= i < |ps| ==> (i in RowOf(cs) <==> ps[i].state == RUNNING)
  {
    var row := RowOf(cs);
    forall c | 0 <= c < |cs| ensures -1 <= row[c] < |ps| {
      assert CpuOk(ps, cs, c);
    }
    forall c, d | 0 <= c < d < |cs| && row[c] != -1 ensures row[c] != row[d] {
      assert CpuOk(ps, cs, c) && CpuOk(ps, cs, d);
    }
    forall i | 0 <= i < |ps| ensures i in row <==> ps[i].state == RUNNING {
      assert ProcOk(ps, cs, cycle, i);
      if ps[i].state == RUNNING {
        assert row[ps[i].cpu_id] == i;
      }
      if i in row {
        var c :| 0 <= c < |row| && row[c] == i;
        assert CpuOk(ps, cs, c);
      }
    }
  }

  lemma AccountedNext(p: Process, q: Process, g: seq<seq<int>>, row: seq<int>, i: int)
    requires Accounted(p, g, i) && q == Ticked(p, |g|)
    requires i in row <==> p.state == RUNNING
    requires p.state == RUNNING ==> p.arrival_time <= |g|
    ensures Accounted(q, g + [row], i)
  {
    RanPrefix(g, row, i, 0, |g|);
    var h := g + [row];
    assert forall t :: 0 <= t < |g| ==> h[t] == g[t];
  }

  /** Ticking every process and appending the cycle's row keeps the accounts. */
  lemma ChartGrows(g: seq<seq<int>>, ps: seq<Process>, cs: seq<CPU>, qs: seq<Process>)
    requires Chart(g, ps, |cs|) && Linked(ps, cs, |g|)
    requires |qs| == |ps| && forall i :: 0 <= i < |ps| ==> qs[i] == Ticked(ps[i], |g|)
    ensures Chart(g + [RowOf(cs)], qs, |cs|)
  {
    var row := RowOf(cs);
    var h := g + [row];
    RowOk(ps, cs, |g|);
    forall t | 0 <= t < |h| ensures Row(h[t], |qs|, |cs|) {
      assert t < |g| ==> Row(g[t], |ps|, |cs|);
    }
    forall i | 0 <= i < |qs| ensures Accounted(qs[i], h, i) {
      assert ProcOk(ps, cs, |g|, i) && Accounted(ps[i], g, i);
      assert qs[i] == Ticked(ps[i], |g|);
      AccountedNext(ps[i], qs[i], g, row, i);
    }
  }

  lemma ChartDispatched(g: seq<seq<int>>, ps: seq<Process>, qs: seq<Process>, cpus: int)
    requires Chart(g, ps, cpus) && OnlyDispatched(qs, ps)
    ensures Chart(g, qs, cpus)
  {
    forall i | 0 <= i < |qs| ensures Accounted(qs[i], g, i) {
      assert SameProgress(qs[i], ps[i]) && Accounted(ps[i], g, i);
    }
    forall t | 0 <= t < |g| ensures Row(g[t], |qs|, cpus) {
      assert Row(g[t], |ps|, cpus);
    }
  }

  // ----- the tick as the simulators run it -----

  /** The processes after CPUs 0 .. k - 1 have ticked. */
  ghost predicate TickedUpTo(ps: seq<Process>, qs: seq<Process>, cs: seq<CPU>, k: int, cycle: int) {
    && |qs| == |ps|
    && (forall i {:trigger qs[i]} :: 0 <= i < |ps| ==>
          qs[i] == if ps[i].state == RUNNING && ps[i].cpu_id < k then Ticked(ps[i], cycle) else ps[i])
  }

  /** A CPU after its tick: idle if it was, or if its process has finished. */
  function TickedCpu(ps: seq<Process>, cpu: CPU, cycle: int): CPU
    requires -1 <= cpu.current_process_id < |ps|
  {
    if cpu.current_process_id != -1 && Ticked(ps[cpu.current_process_id], cycle).state == FINISHED
    then cpu.(current_process_id := -1) else cpu
  }

  lemma TickedNext(ps: seq<Process>, qs: seq<Process>, cs: seq<CPU>, k: int, cycle: int)
    requires Linked(ps, cs, cycle) && 0 <= k < |cs| && TickedUpTo(ps, qs, cs, k, cycle)
    ensures var i := cs[k].current_process_id;
            && -1 <= i < |ps|
            && (i != -1 ==> ps[i].state == RUNNING && qs[i] == ps[i] && ps[i].remaining_time > 0)
            && TickedUpTo(ps, if i == -1 then qs else qs[i := Ticked(qs[i], cycle)], cs, k + 1, cycle)
  {
    assert CpuOk(ps, cs, k);
    var i := cs[k].current_process_id;
    if i != -1 {
      assert ProcOk(ps, cs, cycle, i);
    }
    var rs := if i == -1 then qs else qs[i := Ticked(qs[i], cycle)];
    forall j | 0 <= j < |ps|
      ensures rs[j] == if ps[j].state == RUNNING && ps[j].cpu_id < k + 1 then Ticked(ps[j], cycle) else ps[j]
    {
      assert ProcOk(ps, cs, cycle, j);
      assert qs[j] == if ps[j].state == RUNNING && ps[j].cpu_id < k then Ticked(ps[j], cycle) else ps[j];
    }
  }

  /** After all CPUs have ticked, processes and CPUs point at each other again. */
  lemma TickLinked(ps: seq<Process>, qs: seq<Process>, cs: seq<CPU>, ds: seq<CPU>, cycle: int)
    requires Linked(ps, cs, cycle) && TickedUpTo(ps, qs, cs, |cs|, cycle) && |ds| == |cs|
    requires forall c :: 0 <= c < |cs| ==>
      -1 <= cs[c].current_process_id < |ps| && ds[c].current_process_id ==
          TickedCpu(ps, cs[c], cycle).current_process_id
    ensures forall i :: 0 <= i < |ps| ==> qs[i] == Ticked(ps[i], cycle)
    ensures Linked(qs, ds, cycle + 1) && SameJobs(qs, ps)
  {
    forall i | 0 <= i < |ps| ensures qs[i] == Ticked(ps[i], cycle) && ProcOk(qs, ds, cycle + 1, i) {
      assert ProcOk(ps, cs, cycle, i);
    }
    forall c | 0 <= c < |ds| ensures CpuOk(qs, ds, c) {
      assert CpuOk(ps, cs, c);
    }
  }

  ghost predicate AllBusy(cs: seq<CPU>) {
    forall c :: 0 <= c < |cs| ==> cs[c].current_process_id != -1
  }

  /** Where the tick stands after CPUs 0 .. k - 1. */
  ghost predicate TickState(ps: seq<Process>, cs: seq<CPU>, qs: seq<Process>, ds: seq<CPU>, k: int,
                            cycle: int, finishing: int) {
    && 0 <= k <= |cs| == |ds| && Linked(ps, cs, cycle)
    && TickedUpTo(ps, qs, cs, k, cycle)
    && (forall c {:trigger ds[c]} :: k <= c < |cs| ==> ds[c] == cs[c])
    && (forall c {:trigger ds[c]} {:trigger cs[c]} :: 0 <= c < k ==>
         -1 <= cs[c].current_process_id < |ps| && ds[c] == TickedCpu(ps, cs[c], cycle))
    && Finished(qs) == Finished(ps) + finishing && Left(qs) <= Left(ps)
    && (AllBusy(cs) ==> Left(qs) == Left(ps) - k)
  }

  /** One iteration of the "advance one clock cycle" loop. */
  method TickCpu(p: array<Process>, cpu: array<CPU>, i: int, cycle: int, ghost ps: seq<Process>,
                 ghost cs: seq<CPU>, ghost finishing: int)
    returns (done: int)
    requires TickState(ps, cs, p[..], cpu[..], i, cycle, finishing) && i < cpu.Length
    modifies p, cpu
    ensures TickState(ps, cs, p[..], cpu[..], i + 1, cycle, finishing + done)
  {
    TickedNext(ps, p[..], cs, i, cycle);
    done := 0;
    ghost var qs, ds := p[..], cpu[..];
    assert ds[i] == cs[i];
    var idx := cpu[i].current_process_id;
    if idx != -1 {
      UpdateTotals(qs, idx, Ticked(qs[idx], cycle));
      p[idx] := p[idx].(remaining_time := p[idx].remaining_time - 1);
      if p[idx].remaining_time == 0 {
        p[idx] := p[idx].(state := FINISHED, completion_time := cycle + 1);
        cpu[i] := cpu[i].(current_process_id := -1);
        done := 1;
      }
      assert p[..] == qs[idx := Ticked(qs[idx], cycle)];
    }
    assert cpu[..] == ds[i := TickedCpu(ps, cs[i], cycle)];
    assert idx == -1 ==> !AllBusy(cs);
    assert idx == -1 ==> p[..] == qs;
    forall c | 0 <= c < i + 1
      ensures -1 <= cs[c].current_process_id < |ps| && cpu[..][c] == TickedCpu(ps, cs[c], cycle)
    {
    }
  }

  lemma TickStart(ps: seq<Process>, cs: seq<CPU>, cycle: int)
    requires Linked(ps, cs, cycle)
    ensures TickState(ps, cs, ps, cs, 0, cycle, 0)
  {
    forall i | 0 <= i < |ps| ensures !(ps[i].state == RUNNING && ps[i].cpu_id < 0) {
      assert ProcOk(ps, cs, cycle, i);
    }
  }

  /** The "advance one clock cycle" loop of the EDF simulator. */
  method Tick(p: array<Process>, cpu: array<CPU>, cycle: int) returns (finishing: int)
    requires Linked(p[..], cpu[..], cycle)
    modifies p, cpu
    ensures Linked(p[..], cpu[..], cycle + 1) && SameJobs(p[..], old(p[..]))
    ensures forall i :: 0 <= i < p.Length ==> p[i] == Ticked(old(p[i]), cycle)
    ensures Finished(p[..]) == Finished(old(p[..])) + finishing
    ensures Left(p[..]) <= Left(old(p[..]))
    ensures AllBusy(old(cpu[..])) ==> Left(p[..]) == Left(old(p[..])) - cpu.Length
  {
    ghost var ps, cs := p[..], cpu[..];
    finishing := 0;
    var i := 0;
    TickStart(ps, cs, cycle);
    while i < cpu.Length
      invariant TickState(ps, cs, p[..], cpu[..], i, cycle, finishing)
    {
      var done := TickCpu(p, cpu, i, cycle, ps, cs, finishing);
      finishing := finishing + done;
      i := i + 1;
    }
    ghost var qs, ds := p[..], cpu[..];
    assert forall c :: 0 <= c < |cs| ==> ds[c] == TickedCpu(ps, cs[c], cycle);
    TickLinked(ps, qs, cs, ds, cycle);
    assert forall j :: 0 <= j < p.Length ==> p[j] == qs[j];
  }

  // ----- makespan -----

  ghost function MaxArrival(ps: seq<Process>): (a: int)
    ensures a >= 0 && forall i :: 0 <= i < |ps| ==> ps[i].arrival_time <= a
  {
    if ps == [] then 0
    else
      var a, x := MaxArrival(ps[..|ps| - 1]), ps[|ps| - 1].arrival_time;
      if x > a then x else a
  }

  ghost function MaxBurst(ps: seq<Process>): (b: int)
    ensures b >= 0 && forall i :: 0 <= i < |ps| ==> ps[i].burst_time <= b
  {
    if ps == [] then 0
    else
      var b, x := MaxBurst(ps[..|ps| - 1]), ps[|ps| - 1].burst_time;
      if x > b then x else b
  }

  /** Since the last arrival at `last`, `full` cycles kept every CPU busy and in
      `part` cycles every unfinished process ran. */
  ghost predicate Paced(ps: seq<Process>, cpus: int, cycle: int, last: int, full: int, part: int) {
    && full >= 0 && part >= 0 && cycle >= 0
    && (cycle < last ==> full == 0 && part == 0)
    && (cycle >= last ==> cycle == last + full + part)
    && full * cpus + Left(ps) <= Work(ps)
    && (forall i {:trigger ps[i]} :: 0 <= i < |ps| && ps[i].state != FINISHED ==>
         part <= ps[i].burst_time - ps[i].remaining_time)
  }

  /** No CPU idles while an arrived process waits. */
  ghost predicate NoIdling(ps: seq<Process>, cs: seq<CPU>, cycle: int) {
    AllBusy(cs) || forall i {:trigger ps[i]} :: 0 <= i < |ps| ==> !Waiting(ps[i], cycle)
  }

  lemma PacedDispatched(ps: seq<Process>, qs: seq<Process>, cpus: int, cycle: int, last: int, full: int,
                        part: int)
    requires Paced(ps, cpus, cycle, last, full, part) && OnlyDispatched(qs, ps)
    ensures Paced(qs, cpus, cycle, last, full, part)
  {
    DispatchedTotals(qs, ps);
    SameJobsWork(qs, ps);
    forall i | 0 <= i < |qs| && qs[i].state != FINISHED
      ensures part <= qs[i].burst_time - qs[i].remaining_time
    {
      assert SameProgress(qs[i], ps[i]);
    }
  }

  /** One work-conserving cycle either uses every CPU or runs every unfinished job. */
  lemma PacedNext(ps: seq<Process>, cs: seq<CPU>, qs: seq<Process>, cycle: int, last: int, full: int,
                  part: int)
    returns (full': int, part': int)
    requires Paced(ps, |cs|, cycle, last, full, part) && Linked(ps, cs, cycle) && NoIdling(ps, cs, cycle)
    requires forall i :: 0 <= i < |ps| ==> ps[i].arrival_time <= last
    requires |qs| == |ps| && forall i {:trigger qs[i]} :: 0 <= i < |ps| ==> qs[i] == Ticked(ps[i], cycle)
    requires Left(qs) <= Left(ps) && (AllBusy(cs) ==> Left(qs) == Left(ps) - |cs|)
    ensures Paced(qs, |cs|, cycle + 1, last, full', part')
  {
    forall i | 0 <= i < |qs| ensures SameJob(qs[i], ps[i]) {
      assert qs[i] == Ticked(ps[i], cycle);
    }
    SameJobsWork(qs, ps);
    full', part' := full, part;
    if cycle >= last {
      if AllBusy(cs) {
        full' := full + 1;
        assert (full + 1) * |cs| == full * |cs| + |cs|;
      } else {
        part' := part + 1;
      }
    }
    forall i | 0 <= i < |qs| && qs[i].state != FINISHED
      ensures part' <= qs[i].burst_time - qs[i].remaining_time
    {
      assert ProcOk(ps, cs, cycle, i) && qs[i] == Ticked(ps[i], cycle);
    }
  }

  /** Graham's bound: the last arrival, the total work shared out, and the longest job. */
  ghost function MakespanBound(ps: seq<Process>, cpus: int): int
    requires cpus > 0
  {
    MaxArrival(ps) + Work(ps) / cpus + MaxBurst(ps)
  }

  lemma MulMonotone(a: int, b: int, c: int)
    requires c > 0
    ensures a <= b ==> a * c <= b * c
  {
  }

  lemma FullCyclesBound(full: int, cpus: int, work: int)
    requires cpus > 0 && full * cpus <= work
    ensures full <= work / cpus
  {
    var q := work / cpus;
    assert work < (q + 1) * cpus;
    MulMonotone(q + 1, full, cpus);
  }

  /** While a process is unfinished the bound is not yet reached. */
  lemma PacedBound(ps: seq<Process>, cs: seq<CPU>, cycle: int, full: int, part: int)
    requires |cs| > 0 && Linked(ps, cs, cycle)
    requires Paced(ps, |cs|, cycle, MaxArrival(ps), full, part)
    requires Finished(ps) < |ps|
    ensures cycle < MakespanBound(ps, |cs|)
  {
    FinishedBound(ps);
    var i :| 0 <= i < |ps| && ps[i].state != FINISHED;
    assert ProcOk(ps, cs, cycle, i);
    forall j | 0 <= j < |ps| ensures 0 <= ps[j].remaining_time <= ps[j].burst_time {
      assert ProcOk(ps, cs, cycle, j);
    }
    LeftWork(ps);
    FullCyclesBound(full, |cs|, Work(ps));
    FullCyclesBound(0, |cs|, Work(ps));
  }

  lemma {:induction false} SameJobsBound(ps: seq<Process>, qs: seq<Process>)
    requires SameJobs(ps, qs)
    ensures MaxArrival(ps) == MaxArrival(qs) && MaxBurst(ps) == MaxBurst(qs)
  {
    if ps != [] {
      var pf, qf := ps[..|ps| - 1], qs[..|ps| - 1];
      forall i | 0 <= i < |pf| ensures SameJob(pf[i], qf[i]) {
        assert SameJob(ps[i], qs[i]);
      }
      SameJobsBound(pf, qf);
      assert SameJob(ps[|ps| - 1], qs[|ps| - 1]);
    }
  }

  // ----- a run, whatever the policy -----

  /** The start of process i is the first cycle that ran it, -1 if none has. */
  ghost predicate Begun(p: Process, g: seq<seq<int>>, i: int) {
    if p.start_time == -1 then forall t :: 0 <= t < |g| ==> i !in g[t]
    else 0 <= p.start_time < |g| && i in g[p.start_time] && forall t :: 0 <= t < p.start_time ==> i !in g[t]
  }

  ghost predicate AllBegun(g: seq<seq<int>>, ps: seq<Process>) {
    forall i {:trigger Begun(ps[i], g, i)} :: 0 <= i < |ps| ==> Begun(ps[i], g, i)
  }

  lemma BegunNext(ps: seq<Process>, bs: seq<CPU>, rs: seq<Process>, cs: seq<CPU>, qs: seq<Process>, ranks: seq<int>,
                  g: seq<seq<int>>)
    requires AllBegun(g, ps) && Placed(ps, bs, rs, cs, ranks, |g|) && Linked(rs, cs, |g|) && |qs| == |rs|
    requires forall i {:trigger qs[i]} :: 0 <= i < |rs| ==> qs[i].start_time == rs[i].start_time
    ensures AllBegun(g + [RowOf(cs)], qs)
  {
    var h := g + [RowOf(cs)];
    RowOk(rs, cs, |g|);
    forall i | 0 <= i < |qs| ensures Begun(qs[i], h, i) {
      assert Begun(ps[i], g, i) && Dated(ps[i], rs[i], |g|);
      assert h[|g|] == RowOf(cs) && forall t :: 0 <= t < |g| ==> h[t] == g[t];
    }
  }

  function TickedAll(ps: seq<Process>, cycle: int): (qs: seq<Process>)
    ensures |qs| == |ps|
  {
    seq(|ps|, i requires 0 <= i < |ps| => Ticked(ps[i], cycle))
  }

  /** What holds between cycles, |g| of which are over. */
  ghost predicate Progress(ps0: seq<Process>, ps: seq<Process>, cs: seq<CPU>, g: seq<seq<int>>, finished: int,
                           full: int, part: int) {
    && |cs| > 0 && Linked(ps, cs, |g|) && SameJobs(ps, ps0) && Chart(g, ps, |cs|)
    && finished == Finished(ps) && Paced(ps, |cs|, |g|, MaxArrival(ps0), full, part) && AllBegun(g, ps)
  }

  lemma ProgressStart(ps: seq<Process>, cs: seq<CPU>)
    requires Fresh(ps) && |cs| > 0 && forall c :: 0 <= c < |cs| ==> cs[c].current_process_id == -1
    ensures Progress(ps, ps, cs, [], 0, 0, 0)
  {
    FreshTotals(ps);
    forall i | 0 <= i < |ps|
      ensures SameJob(ps[i], ps[i]) && ProcOk(ps, cs, 0, i) && Accounted(ps[i], [], i)
    {
    }
  }

  /** A cycle: a work-conserving dispatch from ps to rs, and then a tick to qs, after which
      a process may have been put back to wait. */
  lemma ProgressNext(ps0: seq<Process>, ps: seq<Process>, bs: seq<CPU>, rs: seq<Process>, cs: seq<CPU>,
                     qs: seq<Process>, ds: seq<CPU>, ranks: seq<int>,
                     g: seq<seq<int>>, finished: int, full: int, part: int) returns (full': int, part': int)
    requires Progress(ps0, ps, bs, g, finished, full, part) && |bs| == |cs| == |ds|
    requires Placed(ps, bs, rs, cs, ranks, |g|)
    requires forall i {:trigger qs[i]} :: 0 <= i < |rs| && |qs| == |rs| ==> qs[i].start_time == rs[i].start_time
    requires Linked(rs, cs, |g|) && OnlyDispatched(rs, ps) && NoIdling(rs, cs, |g|)
    requires Linked(qs, ds, |g| + 1) && OnlyDispatched(qs, TickedAll(rs, |g|))
    requires Left(qs) <= Left(rs) && (AllBusy(cs) ==> Left(qs) == Left(rs) - |cs|)
    ensures Progress(ps0, qs, ds, g + [RowOf(cs)], finished + Finished(qs) - Finished(rs), full', part')
  {
    var ts := TickedAll(rs, |g|);
    DispatchedTotals(rs, ps);
    DispatchedTotals(qs, ts);
    forall i | 0 <= i < |ts| ensures SameJob(ts[i], rs[i]) {
    }
    SameJobsTrans(qs, ts, rs);
    SameJobsTrans(qs, rs, ps);
    SameJobsTrans(qs, ps, ps0);
    ChartDispatched(g, ps, rs, |cs|);
    ChartGrows(g, rs, cs, ts);
    ChartDispatched(g + [RowOf(cs)], ts, qs, |cs|);
    PacedDispatched(ps, rs, |cs|, |g|, MaxArrival(ps0), full, part);
    forall i | 0 <= i < |rs| ensures rs[i].arrival_time <= MaxArrival(ps0) {
      assert SameProgress(rs[i], ps[i]) && SameJob(ps[i], ps0[i]);
    }
    full', part' := PacedNext(rs, cs, ts, |g|, MaxArrival(ps0), full, part);
    PacedDispatched(ts, qs, |cs|, |g| + 1, MaxArrival(ps0), full', part');
    BegunNext(ps, bs, rs, cs, qs, ranks, g);
  }

  lemma BoundSign(ps: seq<Process>, cpus: int)
    requires Fresh(ps) && cpus > 0
    ensures MakespanBound(ps, cpus) >= 0
  {
    LeftWork(ps);
    FullCyclesBound(0, cpus, Work(ps));
  }

  lemma StillBelow(ps0: seq<Process>, ps: seq<Process>, cs: seq<CPU>, g: seq<seq<int>>, finished: int,
                   full: int, part: int)
    requires Progress(ps0, ps, cs, g, finished, full, part) && finished < |ps|
    ensures |g| < MakespanBound(ps0, |cs|)
  {
    SameJobsBound(ps, ps0);
    SameJobsWork(ps, ps0);
    PacedBound(ps, cs, |g|, full, part);
  }

  lemma AllDone(ps0: seq<Process>, ps: seq<Process>, cs: seq<CPU>, g: seq<seq<int>>, finished: int, full: int,
                part: int)
    requires Progress(ps0, ps, cs, g, finished, full, part) && finished >= |ps|
    ensures forall i :: 0 <= i < |ps| ==> ps[i].state == FINISHED && ps[i].remaining_time == 0
  {
    FinishedBound(ps);
    forall i | 0 <= i < |ps| ensures ps[i].remaining_time == 0 {
      assert ProcOk(ps, cs, |g|, i);
    }
  }

  // ----- dispatch by rank -----

  /** CPU c is busy with a process of rank at most that of process i. */
  ghost predicate Ahead(ps: seq<Process>, cs: seq<CPU>, ranks: seq<int>, c: int, i: int) {
    && 0 <= c < |cs| && 0 <= cs[c].current_process_id < |ps| == |ranks| && 0 <= i < |ps|
    && ranks[cs[c].current_process_id] <= ranks[i]
  }

  /** No process waits while one of the first k CPUs is idle or runs one of higher rank. */
  ghost predicate UrgentTo(ps: seq<Process>, cs: seq<CPU>, ranks: seq<int>, k: int, cycle: int) {
    forall i, c {:trigger Ahead(ps, cs, ranks, c, i)} :: 0 <= i < |ps| && Waiting(ps[i], cycle) && 0 <= c < k ==>
      Ahead(ps, cs, ranks, c, i)
  }

  /** All CPUs run the lowest-ranked of the arrived processes. */
  ghost predicate UrgentBy(ps: seq<Process>, cs: seq<CPU>, ranks: seq<int>, cycle: int) {
    UrgentTo(ps, cs, ranks, |cs|, cycle)
  }

  lemma UrgentByNoIdling(ps: seq<Process>, cs: seq<CPU>, ranks: seq<int>, cycle: int)
    requires UrgentBy(ps, cs, ranks, cycle)
    ensures NoIdling(ps, cs, cycle)
  {
    if !AllBusy(cs) {
      var c :| 0 <= c < |cs| && cs[c].current_process_id == -1;
      forall i | 0 <= i < |ps| ensures !Waiting(ps[i], cycle) {
        assert !Ahead(ps, cs, ranks, c, i);
      }
    }
  }

  /** `best` waits, and no waiting process has a lower rank. */
  ghost predicate Foremost(ps: seq<Process>, ranks: seq<int>, best: int, cycle: int) {
    && 0 <= best < |ps| == |ranks| && Waiting(ps[best], cycle)
    && forall i {:trigger ranks[i]} :: 0 <= i < |ps| && Waiting(ps[i], cycle) ==> ranks[best] <= ranks[i]
  }

  /** Giving CPU k to the foremost waiting process, which displaces only a higher rank. */
  lemma AssignRanked(ps: seq<Process>, cs: seq<CPU>, ranks: seq<int>, k: int, best: int, cycle: int, cpu: CPU)
    requires Linked(ps, cs, cycle) && UrgentTo(ps, cs, ranks, k, cycle) && 0 <= k < |cs|
    requires Foremost(ps, ranks, best, cycle)
    requires cpu.current_process_id == best && -1 <= cs[k].current_process_id < |ps|
    requires cs[k].current_process_id != -1 ==> ranks[best] < ranks[cs[k].current_process_id]
    ensures Linked(AfterAssign(ps, cs[k].current_process_id, best, k, cycle), cs[k := cpu], cycle)
    ensures OnlyDispatched(AfterAssign(ps, cs[k].current_process_id, best, k, cycle), ps)
    ensures UrgentTo(AfterAssign(ps, cs[k].current_process_id, best, k, cycle), cs[k := cpu], ranks, k + 1, cycle)
  {
    AssignLinked(ps, cs, cycle, k, best, cpu);
    var qs, ds := AfterAssign(ps, cs[k].current_process_id, best, k, cycle), cs[k := cpu];
    forall i, c | 0 <= i < |qs| && Waiting(qs[i], cycle) && 0 <= c < k + 1
      ensures Ahead(qs, ds, ranks, c, i)
    {
      if c < k {
        assert Ahead(ps, cs, ranks, c, best);
      }
    }
  }

  /** A CPU that already runs something at least as urgent as all that wait. */
  lemma StillUrgent(ps: seq<Process>, cs: seq<CPU>, ranks: seq<int>, k: int, best: int, cycle: int)
    requires UrgentTo(ps, cs, ranks, k, cycle) && 0 <= k < |cs| && Foremost(ps, ranks, best, cycle)
    requires 0 <= cs[k].current_process_id < |ps| && ranks[cs[k].current_process_id] <= ranks[best]
    ensures UrgentTo(ps, cs, ranks, k + 1, cycle)
  {
    forall i, c | 0 <= i < |ps| && Waiting(ps[i], cycle) && 0 <= c < k + 1
      ensures Ahead(ps, cs, ranks, c, i)
    {
      assert ranks[best] <= ranks[i];
    }
  }

  /** Process p had arrived and not completed at cycle t. */
  ghost predicate Pending(p: Process, t: int) {
    p.arrival_time <= t && (p.state == FINISHED ==> t < p.completion_time)
  }

  /** In cycle t nobody pending was passed over for an idle CPU or for a process of higher
      rank. */
  ghost predicate RowUrgent(row: seq<int>, ps: seq<Process>, ranks: seq<int>, t: int) {
    |ranks| == |ps| && forall i, c {:trigger Pending(ps[i], t), row[c]} ::
        0 <= i < |ps| && Pending(ps[i], t) && i !in row && 0 <= c < |row| ==>
      0 <= row[c] < |ps| && ranks[row[c]] <= ranks[i]
  }

  ghost predicate ChartUrgentBy(g: seq<seq<int>>, ps: seq<Process>, ranks: seq<int>) {
    forall t {:trigger RowUrgent(g[t], ps, ranks, t)} :: 0 <= t < |g| ==> RowUrgent(g[t], ps, ranks, t)
  }

  /** Past pending stays past pending. */
  lemma RowUrgentLater(row: seq<int>, ps: seq<Process>, qs: seq<Process>, ranks: seq<int>, t: int)
    requires RowUrgent(row, ps, ranks, t) && SameJobs(qs, ps)
    requires forall i {:trigger qs[i]} :: 0 <= i < |ps| && Pending(qs[i], t) ==> Pending(ps[i], t)
    ensures RowUrgent(row, qs, ranks, t)
  {
    forall i, c | 0 <= i < |qs| && Pending(qs[i], t) && i !in row && 0 <= c < |row|
      ensures 0 <= row[c] < |qs| && ranks[row[c]] <= ranks[i]
    {
      assert Pending(ps[i], t);
    }
  }

  lemma RowUrgentNow(g: seq<seq<int>>, ps: seq<Process>, cs: seq<CPU>, ranks: seq<int>)
    requires Linked(ps, cs, |g|) && UrgentBy(ps, cs, ranks, |g|) && Chart(g, ps, |cs|) && |ranks| == |ps|
    ensures RowUrgent(RowOf(cs), ps, ranks, |g|)
  {
    var row := RowOf(cs);
    RowOk(ps, cs, |g|);
    forall i, c | 0 <= i < |ps| && Pending(ps[i], |g|) && i !in row && 0 <= c < |row|
      ensures 0 <= row[c] < |ps| && ranks[row[c]] <= ranks[i]
    {
      assert Accounted(ps[i], g, i);
      assert Waiting(ps[i], |g|);
      assert Ahead(ps, cs, ranks, c, i);
    }
  }

  /** What was pending before the tick or the dispatch, and by now is done, was pending in
      every earlier cycle all the same. */
  lemma PendingBack(ps: seq<Process>, rs: seq<Process>, cs: seq<CPU>, cycle: int, i: int, t: int)
    requires OnlyDispatched(rs, ps) && Linked(rs, cs, cycle) && 0 <= i < |ps| && 0 <= t <= cycle
    requires Pending(Ticked(rs[i], cycle), t)
    ensures Pending(rs[i], t) && Pending(ps[i], t)
  {
    assert SameProgress(rs[i], ps[i]) && ProcOk(rs, cs, cycle, i);
  }

  /** The chart stays urgent over dispatch, the new row, and the tick. */
  lemma ChartUrgentGrows(g: seq<seq<int>>, ps: seq<Process>, rs: seq<Process>, cs: seq<CPU>, qs: seq<Process>,
                         ranks: seq<int>)
    requires ChartUrgentBy(g, ps, ranks) && OnlyDispatched(rs, ps) && Chart(g, rs, |cs|)
    requires |ranks| == |ps|
    requires Linked(rs, cs, |g|) && UrgentBy(rs, cs, ranks, |g|)
    requires |qs| == |rs| && forall i {:trigger qs[i]} :: 0 <= i < |rs| ==> qs[i] == Ticked(rs[i], |g|)
    ensures ChartUrgentBy(g + [RowOf(cs)], qs, ranks)
  {
    var h := g + [RowOf(cs)];
    RowUrgentNow(g, rs, cs, ranks);
    forall i | 0 <= i < |qs| ensures SameJob(qs[i], ps[i]) && SameJob(qs[i], rs[i]) {
      assert SameProgress(rs[i], ps[i]) && qs[i] == Ticked(rs[i], |g|);
    }
    forall t | 0 <= t < |h| ensures RowUrgent(h[t], qs, ranks, t) {
      forall i | 0 <= i < |qs| && Pending(qs[i], t) ensures Pending(rs[i], t) && Pending(ps[i], t) {
        assert qs[i] == Ticked(rs[i], |g|);
        PendingBack(ps, rs, cs, |g|, i, t);
      }
      if t < |g| {
        assert RowUrgent(g[t], ps, ranks, t);
        RowUrgentLater(g[t], ps, qs, ranks, t);
      } else {
        RowUrgentLater(h[t], rs, qs, ranks, t);
      }
    }
  }
}
