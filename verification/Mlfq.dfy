/** The multiprocessor multilevel feedback queue simulator of mlfq.c: dispatch by level,
    demotion, boost, and the makespan of its runs. */
module Mlfq {
  import opened Sched

  const LEVELS := 3
  const BOOST_CYCLE := 30

  function Quantum(level: int): int {
    if level == 0 then 4 else if level == 1 then 8 else 100000
  }

  function Levels(ps: seq<Process>): (ranks: seq<int>)
    ensures |ranks| == |ps|
  {
    seq(|ps|, i requires 0 <= i < |ps| => ps[i].priority_level)
  }

  /** Levels are proper, and a CPU whose process can be demoted has between one cycle and
      the level's whole quantum left for it. */
  ghost predicate LevelOk(ps: seq<Process>, i: int)
    requires 0 <= i < |ps|
  {
    0 <= ps[i].priority_level < LEVELS
  }

  ghost predicate QuantumOk(ps: seq<Process>, cs: seq<CPU>, c: int)
    requires 0 <= c < |cs|
  {
    var i := cs[c].current_process_id;
    0 <= i < |ps| && ps[i].priority_level < LEVELS - 1 ==> 1 <= cs[c].time_quantum_left <= Quantum(ps[i].priority_level)
  }

  ghost predicate Leveled(ps: seq<Process>, cs: seq<CPU>) {
    && (forall i {:trigger LevelOk(ps, i)} :: 0 <= i < |ps| ==> LevelOk(ps, i))
    && (forall c {:trigger QuantumOk(ps, cs, c)} :: 0 <= c < |cs| ==> QuantumOk(ps, cs, c))
  }

  // ----- dispatch -----

  /** pick_by_queue(): the first arrived READY process of the lowest level, or -1. */
  method PickByQueue(p: array<Process>, curr: int) returns (chosen: int)
    requires forall i :: 0 <= i < p.Length ==> p[i].priority_level < LEVELS
    ensures -1 <= chosen < p.Length
    ensures chosen == -1 <==> forall i :: 0 <= i < p.Length ==> !Waiting(p[i], curr)
    ensures chosen != -1 ==> Foremost(p[..], Levels(p[..]), chosen, curr)
    ensures chosen != -1 ==> forall i :: 0 <= i < chosen && Waiting(p[i], curr) ==>
              p[chosen].priority_level < p[i].priority_level
  {
    chosen := -1;
    var best_level := LEVELS;
    for i := 0 to p.Length
      invariant -1 <= chosen < i
      invariant best_level == if chosen == -1 then LEVELS else p[chosen].priority_level
      invariant chosen != -1 ==> Waiting(p[chosen], curr)
      invariant forall j :: 0 <= j < i && Waiting(p[j], curr) ==>
                  best_level <= p[j].priority_level && chosen != -1
      invariant chosen != -1 ==> forall j :: 0 <= j < chosen && Waiting(p[j], curr) ==>
                  best_level < p[j].priority_level
    {
      if p[i].state != READY || p[i].arrival_time > curr {
        continue;
      }
      if p[i].priority_level < best_level {
        best_level := p[i].priority_level;
        chosen := i;
      }
    }
  }

  /** CPU c goes on with what it had, or has taken another process, with the whole quantum
      of its level. */
  ghost predicate CpuGiven(ps: seq<Process>, bs: seq<CPU>, cs: seq<CPU>, c: int)
    requires 0 <= c < |cs| == |bs|
  {
    var i := cs[c].current_process_id;
    cs[c] == bs[c] || (i != bs[c].current_process_id && 0 <= i < |ps| && ps[i].state == RUNNING
                       && cs[c].time_quantum_left == Quantum(ps[i].priority_level))
  }

  /** The CPUs from k on are as they were. */
  ghost predicate GivenTo(ps: seq<Process>, bs: seq<CPU>, cs: seq<CPU>, k: int) {
    && |cs| == |bs| && (forall c {:trigger cs[c]} :: 0 <= k <= c < |cs| ==> cs[c] == bs[c])
    && (forall c {:trigger CpuGiven(ps, bs, cs, c)} :: 0 <= c < |cs| ==> CpuGiven(ps, bs, cs, c))
  }

  ghost predicate DispatchState(ps: seq<Process>, bs: seq<CPU>, cs: seq<CPU>, ranks: seq<int>, k: int, cycle: int) {
    && Linked(ps, cs, cycle) && Leveled(ps, cs) && UrgentTo(ps, cs, ranks, k, cycle) && ranks == Levels(ps)
    && 0 <= k <= |cs| && GivenTo(ps, bs, cs, k)
  }

  lemma AssignGiven(ps: seq<Process>, bs: seq<CPU>, cs: seq<CPU>, k: int, best: int, cycle: int, cpu: CPU)
    requires Linked(ps, cs, cycle) && 0 <= k < |cs| && 0 <= best < |ps| && ps[best].state == READY
    requires GivenTo(ps, bs, cs, k) && -1 <= cs[k].current_process_id < |ps|
    requires cpu.current_process_id == best && cpu.time_quantum_left == Quantum(ps[best].priority_level)
    ensures GivenTo(AfterAssign(ps, cs[k].current_process_id, best, k, cycle), bs, cs[k := cpu], k + 1)
  {
    var qs, ds := AfterAssign(ps, cs[k].current_process_id, best, k, cycle), cs[k := cpu];
    assert CpuOk(ps, cs, k);
    forall c | 0 <= c < |ds| ensures CpuGiven(qs, bs, ds, c) {
      assert CpuGiven(ps, bs, cs, c) && CpuOk(ps, cs, c);
    }
  }

  lemma AssignLeveled(ps: seq<Process>, cs: seq<CPU>, k: int, best: int, cycle: int, cpu: CPU)
    requires Linked(ps, cs, cycle) && Leveled(ps, cs) && 0 <= k < |cs| && 0 <= best < |ps|
    requires ps[best].state == READY
    requires cpu.current_process_id == best && cpu.time_quantum_left == Quantum(ps[best].priority_level)
    requires -1 <= cs[k].current_process_id < |ps|
    ensures Leveled(AfterAssign(ps, cs[k].current_process_id, best, k, cycle), cs[k := cpu])
    ensures Levels(AfterAssign(ps, cs[k].current_process_id, best, k, cycle)) == Levels(ps)
  {
    var qs, ds := AfterAssign(ps, cs[k].current_process_id, best, k, cycle), cs[k := cpu];
    forall i | 0 <= i < |qs| ensures LevelOk(qs, i) {
      assert LevelOk(ps, i);
    }
    forall c | 0 <= c < |ds| ensures QuantumOk(qs, ds, c) {
      assert QuantumOk(ps, cs, c);
    }
  }

  /** One turn of the dispatch loop. */
  method DispatchCpu(p: array<Process>, cpu: array<CPU>, i: int, cycle: int, ghost ranks: seq<int>,
                     ghost ps0: seq<Process>, ghost bs: seq<CPU>)
    requires DispatchState(p[..], bs, cpu[..], ranks, i, cycle) && i < cpu.Length
    requires Placed(ps0, bs, p[..], cpu[..], ranks, cycle)
    modifies p, cpu
    ensures DispatchState(p[..], bs, cpu[..], ranks, i + 1, cycle) && OnlyDispatched(p[..], old(p[..]))
    ensures Placed(ps0, bs, p[..], cpu[..], ranks, cycle)
  {
    ghost var ps, cs := p[..], cpu[..];
    forall j | 0 <= j < p.Length ensures p[j].priority_level < LEVELS {
      assert LevelOk(ps, j);
    }
    var best := PickByQueue(p, cycle);
    if best == -1 {
      return;
    }
    var running := cpu[i].current_process_id;
    assert CpuOk(ps, cs, i) && cs[i] == bs[i] && CpuOk(ps0, bs, i);
    assert running != -1 ==> ProcOk(ps0, bs, cycle, running);
    if running == -1 || p[best].priority_level < p[running].priority_level {
      var q := Quantum(p[best].priority_level);
      AssignRanked(ps, cs, ranks, i, best, cycle, cs[i].(current_process_id := best, time_quantum_left := q));
      AssignLeveled(ps, cs, i, best, cycle, cs[i].(current_process_id := best, time_quantum_left := q));
      PlacedNext(ps0, bs, ps, cs, ranks, i, best, cycle, cs[i].(current_process_id := best, time_quantum_left := q));
      AssignGiven(ps, bs, cs, i, best, cycle, cs[i].(current_process_id := best, time_quantum_left := q));
      Assign(p, cpu, i, best, cycle, q);
    } else {
      StillUrgent(ps, cs, ranks, i, best, cycle);
    }
  }

  /** The dispatch phase: afterwards no arrived process waits while a CPU is idle or runs
      one of a worse level, and a process gives way only to a better level.  Levels stay, and a
      CPU that changes hands starts a quantum. */
  method Dispatch(p: array<Process>, cpu: array<CPU>, cycle: int)
    requires Linked(p[..], cpu[..], cycle) && Leveled(p[..], cpu[..])
    modifies p, cpu
    ensures Linked(p[..], cpu[..], cycle) && Leveled(p[..], cpu[..]) && OnlyDispatched(p[..], old(p[..]))
    ensures UrgentBy(p[..], cpu[..], Levels(p[..]), cycle)
    ensures Levels(p[..]) == Levels(old(p[..])) && GivenTo(p[..], old(cpu[..]), cpu[..], cpu.Length)
    ensures Placed(old(p[..]), old(cpu[..]), p[..], cpu[..], Levels(p[..]), cycle)
  {
    ghost var ps, bs, ranks := p[..], cpu[..], Levels(p[..]);
    PlacedNone(ps, bs, ranks, cycle);
    var i := 0;
    DispatchedItself(ps);
    while i < cpu.Length
      invariant DispatchState(p[..], bs, cpu[..], ranks, i, cycle) && OnlyDispatched(p[..], ps)
      invariant Placed(ps, bs, p[..], cpu[..], ranks, cycle)
    {
      ghost var before := p[..];
      DispatchCpu(p, cpu, i, cycle, ranks, ps, bs);
      DispatchedTrans(p[..], before, ps);
      i := i + 1;
    }
  }

  // ----- boost -----

  predicate Boostable(p: Process) {
    p.state == READY || p.state == RUNNING
  }

  function Boosted(p: Process): Process {
    if Boostable(p) then p.(priority_level := 0) else p
  }

  /** A CPU after the boost of processes 0 .. k - 1: busy with one of them, it has the whole
      quantum of level 0. */
  function Refreshed(cpu: CPU, k: int): CPU {
    if 0 <= cpu.current_process_id < k then cpu.(time_quantum_left := Quantum(0)) else cpu
  }

  ghost predicate RefreshedTo(bs: seq<CPU>, cs: seq<CPU>, k: int) {
    |cs| == |bs| && forall c {:trigger cs[c]} {:trigger bs[c]} :: 0 <= c < |cs| ==> cs[c] == Refreshed(bs[c], k)
  }

  lemma RefreshedNone(bs: seq<CPU>)
    ensures RefreshedTo(bs, bs, 0)
  {
  }

  function BoostedCpus(cs: seq<CPU>, p: Process): seq<CPU> {
    if p.state == RUNNING && 0 <= p.cpu_id < |cs| then cs[p.cpu_id := cs[p.cpu_id].(time_quantum_left := Quantum(0))]
        else cs
  }

  lemma RefreshedNext(ps: seq<Process>, bs: seq<CPU>, cs: seq<CPU>, k: int, cycle: int)
    requires Linked(ps, cs, cycle) && RefreshedTo(bs, cs, k) && 0 <= k < |ps|
    ensures RefreshedTo(bs, BoostedCpus(cs, ps[k]), k + 1)
  {
    assert ProcOk(ps, cs, cycle, k);
    var ds := BoostedCpus(cs, ps[k]);
    forall c | 0 <= c < |cs| ensures ds[c] == Refreshed(bs[c], k + 1) {
      assert cs[c] == Refreshed(bs[c], k) && CpuOk(ps, cs, c);
    }
  }

  lemma BoostOne(ps: seq<Process>, cs: seq<CPU>, i: int, cycle: int)
    requires Linked(ps, cs, cycle) && Leveled(ps, cs) && 0 <= i < |ps| && Boostable(ps[i])
    ensures ps[i].state == RUNNING ==> 0 <= ps[i].cpu_id < |cs|
    ensures Linked(ps[i := Boosted(ps[i])], BoostedCpus(cs, ps[i]), cycle)
    ensures Leveled(ps[i := Boosted(ps[i])], BoostedCpus(cs, ps[i]))
    ensures OnlyDispatched(ps[i := Boosted(ps[i])], ps)
  {
    assert ProcOk(ps, cs, cycle, i);
    var qs, ds := ps[i := Boosted(ps[i])], BoostedCpus(cs, ps[i]);
    forall c | 0 <= c < |ds| ensures CpuOk(qs, ds, c) && QuantumOk(qs, ds, c) {
      assert CpuOk(ps, cs, c) && QuantumOk(ps, cs, c);
    }
    forall j | 0 <= j < |qs|
      ensures ProcOk(qs, ds, cycle, j) && LevelOk(qs, j) && SameProgress(qs[j], ps[j])
    {
      assert ProcOk(ps, cs, cycle, j) && LevelOk(ps, j);
    }
  }

  /** The periodic boost: everything unfinished back to level 0, with a new quantum. */
  method Boost(p: array<Process>, cpu: array<CPU>, cycle: int)
    requires Linked(p[..], cpu[..], cycle) && Leveled(p[..], cpu[..])
    modifies p, cpu
    ensures Linked(p[..], cpu[..], cycle) && Leveled(p[..], cpu[..]) && OnlyDispatched(p[..], old(p[..]))
    ensures forall i :: 0 <= i < p.Length ==> p[i] == Boosted(old(p[i]))
    ensures forall c :: 0 <= c < cpu.Length ==> cpu[c] == Refreshed(old(cpu[c]), p.Length)
  {
    ghost var ps, bs := p[..], cpu[..];
    RefreshedNone(bs);
    var i := 0;
    DispatchedItself(ps);
    while i < p.Length
      invariant 0 <= i <= p.Length && Linked(p[..], cpu[..], cycle) && Leveled(p[..], cpu[..])
      invariant OnlyDispatched(p[..], ps)
      invariant forall j :: 0 <= j < p.Length ==> p[j] == if j < i then Boosted(ps[j]) else ps[j]
      invariant RefreshedTo(bs, cpu[..], i)
    {
      if p[i].state == READY || p[i].state == RUNNING {
        ghost var qs, cs := p[..], cpu[..];
        BoostOne(qs, cs, i, cycle);
        RefreshedNext(qs, bs, cs, i, cycle);
        p[i] := p[i].(priority_level := 0);
        if p[i].state == RUNNING {
          cpu[p[i].cpu_id] := cpu[p[i].cpu_id].(time_quantum_left := Quantum(0));
        }
        assert p[..] == qs[i := Boosted(qs[i])];
        assert cpu[..] == BoostedCpus(cs, qs[i]);
        DispatchedTrans(p[..], qs, ps);
      } else {
        RefreshedNext(p[..], bs, cpu[..], i, cycle);
      }
      i := i + 1;
    }
    assert forall c :: 0 <= c < cpu.Length ==> CpuOk(ps, bs, c) && cpu[..][c] == Refreshed(bs[c], p.Length);
  }

  // ----- one tick -----

  /** A running process after its cycle: finished, demoted at the end of its quantum, or
      still running. */
  function After(p: Process, quantum: int, cycle: int): Process {
    if p.remaining_time == 1 then Ticked(p, cycle)
    else if p.priority_level < LEVELS - 1 && quantum == 1
        then p.(remaining_time := p.remaining_time - 1, priority_level := p.priority_level + 1, state := READY)
    else p.(remaining_time := p.remaining_time - 1)
  }

  function AfterCpu(ps: seq<Process>, cpu: CPU, cycle: int): CPU
    requires -1 <= cpu.current_process_id < |ps|
  {
    if cpu.current_process_id == -1 then cpu
    else
      var p := ps[cpu.current_process_id];
      var left := if p.priority_level < LEVELS - 1 then cpu.time_quantum_left - 1 else cpu.time_quantum_left;
      cpu.(time_quantum_left := left,
           current_process_id := if After(p, cpu.time_quantum_left, cycle).state == RUNNING then cpu.current_process_id
               else -1)
  }

  ghost predicate AfterUpTo(ps: seq<Process>, qs: seq<Process>, cs: seq<CPU>, k: int, cycle: int) {
    && |qs| == |ps|
    && (forall i {:trigger qs[i]} :: 0 <= i < |ps| ==>
          qs[i] == if ps[i].state == RUNNING && 0 <= ps[i].cpu_id < |cs| && ps[i].cpu_id < k
              then After(ps[i], cs[ps[i].cpu_id].time_quantum_left, cycle) else ps[i])
  }

  /** Where the tick stands after CPUs 0 .. k - 1. */
  ghost predicate TickState(ps: seq<Process>, cs: seq<CPU>, qs: seq<Process>, ds: seq<CPU>, k: int,
                            cycle: int, finishing: int) {
    && 0 <= k <= |cs| == |ds| && Linked(ps, cs, cycle) && Leveled(ps, cs)
    && AfterUpTo(ps, qs, cs, k, cycle)
    && (forall c {:trigger ds[c]} :: k <= c < |cs| ==> ds[c] == cs[c])
    && (forall c {:trigger ds[c]} {:trigger cs[c]} :: 0 <= c < k ==>
         -1 <= cs[c].current_process_id < |ps| && ds[c] == AfterCpu(ps, cs[c], cycle))
    && Finished(qs) == Finished(ps) + finishing && Left(qs) <= Left(ps)
    && (AllBusy(cs) ==> Left(qs) == Left(ps) - k)
  }

  lemma AfterNext(ps: seq<Process>, qs: seq<Process>, cs: seq<CPU>, k: int, cycle: int)
    requires Linked(ps, cs, cycle) && 0 <= k < |cs| && AfterUpTo(ps, qs, cs, k, cycle)
    ensures -1 <= cs[k].current_process_id < |ps|
    ensures cs[k].current_process_id != -1 ==>
              ps[cs[k].current_process_id].state == RUNNING
                  && qs[cs[k].current_process_id] == ps[cs[k].current_process_id]
                       && ps[cs[k].current_process_id].remaining_time > 0
    ensures AfterUpTo(ps, if cs[k].current_process_id == -1 then qs
                          else qs[cs[k].current_process_id := After(qs[cs[k].current_process_id],
                              cs[k].time_quantum_left, cycle)], cs, k + 1, cycle)
  {
    assert CpuOk(ps, cs, k);
    var i := cs[k].current_process_id;
    if i != -1 {
      assert ProcOk(ps, cs, cycle, i);
    }
    var rs := if i == -1 then qs else qs[i := After(qs[i], cs[k].time_quantum_left, cycle)];
    forall j | 0 <= j < |ps|
      ensures rs[j] == if ps[j].state == RUNNING && 0 <= ps[j].cpu_id < |cs| && ps[j].cpu_id < k + 1
                then After(ps[j], cs[ps[j].cpu_id].time_quantum_left, cycle)
                else ps[j]
    {
      assert ProcOk(ps, cs, cycle, j);
      assert qs[j] == if ps[j].state == RUNNING && 0 <= ps[j].cpu_id < |cs| && ps[j].cpu_id < k
          then After(ps[j], cs[ps[j].cpu_id].time_quantum_left, cycle) else ps[j];
    }
  }

  lemma TickNext(ps: seq<Process>, cs: seq<CPU>, qs: seq<Process>, ds: seq<CPU>, k: int, cycle: int,
                 finishing: int)
    requires TickState(ps, cs, qs, ds, k, cycle, finishing) && k < |cs|
    ensures -1 <= cs[k].current_process_id < |ps| && |qs| == |ps|
    ensures cs[k].current_process_id != -1 ==>
              qs[cs[k].current_process_id] == ps[cs[k].current_process_id]
                  && ps[cs[k].current_process_id].state == RUNNING && ps[cs[k].current_process_id].remaining_time > 0
    ensures cs[k].current_process_id == -1 ==>
              TickState(ps, cs, qs, ds[k := AfterCpu(ps, cs[k], cycle)], k + 1, cycle, finishing)
    ensures cs[k].current_process_id != -1 ==>
              TickState(ps, cs, qs[cs[k].current_process_id := After(qs[cs[k].current_process_id],
                  cs[k].time_quantum_left, cycle)],
                        ds[k := AfterCpu(ps, cs[k], cycle)], k + 1, cycle,
                            finishing + if qs[cs[k].current_process_id].remaining_time == 1 then 1 else 0)
  {
    AfterNext(ps, qs, cs, k, cycle);
    var i := cs[k].current_process_id;
    if i != -1 {
      UpdateTotals(qs, i, After(qs[i], cs[k].time_quantum_left, cycle));
    } else {
      assert !AllBusy(cs);
    }
  }

  /** One turn of the loop that advances the clock. */
  method TickCpu(p: array<Process>, cpu: array<CPU>, i: int, cycle: int, ghost ps: seq<Process>,
                 ghost cs: seq<CPU>, ghost finishing: int)
    returns (done: int)
    requires TickState(ps, cs, p[..], cpu[..], i, cycle, finishing) && i < cpu.Length
    modifies p, cpu
    ensures TickState(ps, cs, p[..], cpu[..], i + 1, cycle, finishing + done)
  {
    ghost var qs, ds := p[..], cpu[..];
    TickNext(ps, cs, qs, ds, i, cycle, finishing);
    done := 0;
    assert ds[i] == cs[i];
    var idx := cpu[i].current_process_id;
    if idx != -1 {
      p[idx] := p[idx].(remaining_time := p[idx].remaining_time - 1);
      if p[idx].priority_level < LEVELS - 1 {
        cpu[i] := cpu[i].(time_quantum_left := cpu[i].time_quantum_left - 1);
      }
      if p[idx].remaining_time == 0 {
        p[idx] := p[idx].(state := FINISHED, completion_time := cycle + 1);
        cpu[i] := cpu[i].(current_process_id := -1);
        done := 1;
      } else if p[idx].priority_level < LEVELS - 1 && cpu[i].time_quantum_left == 0 {
        p[idx] := p[idx].(priority_level := p[idx].priority_level + 1);
        p[idx] := p[idx].(state := READY);
        cpu[i] := cpu[i].(current_process_id := -1);
      }
      assert p[..] == qs[idx := After(qs[idx], cs[i].time_quantum_left, cycle)];
    }
    assert cpu[..] == ds[i := AfterCpu(ps, cs[i], cycle)];
  }

  /** CPU c and its process have advanced by a cycle. */
  ghost predicate CpuTicked(ps: seq<Process>, cs: seq<CPU>, qs: seq<Process>, ds: seq<CPU>, c: int, cycle: int)
    requires 0 <= c < |cs| == |ds| && |ps| == |qs|
  {
    var i := cs[c].current_process_id;
    -1 <= i < |ps| && ds[c] == AfterCpu(ps, cs[c], cycle)
        && (i != -1 ==> qs[i] == After(ps[i], cs[c].time_quantum_left, cycle))
  }

  /** Exactly the running processes, and their CPUs, have advanced by a cycle. */
  ghost predicate AllTicked(ps: seq<Process>, cs: seq<CPU>, qs: seq<Process>, ds: seq<CPU>, cycle: int) {
    && |ds| == |cs| && |qs| == |ps|
    && (forall i {:trigger qs[i]} :: 0 <= i < |ps| && ps[i].state != RUNNING ==> qs[i] == ps[i])
    && (forall c {:trigger CpuTicked(ps, cs, qs, ds, c, cycle)} :: 0 <= c < |cs| ==>
        CpuTicked(ps, cs, qs, ds, c, cycle))
  }

  lemma TickedExactly(ps: seq<Process>, cs: seq<CPU>, qs: seq<Process>, ds: seq<CPU>, cycle: int, finishing: int)
    requires TickState(ps, cs, qs, ds, |cs|, cycle, finishing)
    ensures AllTicked(ps, cs, qs, ds, cycle)
  {
    forall c | 0 <= c < |cs| ensures CpuTicked(ps, cs, qs, ds, c, cycle) {
      assert CpuOk(ps, cs, c) && ds[c] == AfterCpu(ps, cs[c], cycle);
    }
  }

  /** After all CPUs have ticked: as after a plain tick, except that demoted processes wait
      again, one level down. */
  lemma AfterLinked(ps: seq<Process>, qs: seq<Process>, cs: seq<CPU>, ds: seq<CPU>, cycle: int)
    requires Linked(ps, cs, cycle) && Leveled(ps, cs) && AfterUpTo(ps, qs, cs, |cs|, cycle)
    requires |ds| == |cs|
    requires forall c {:trigger ds[c]} {:trigger cs[c]} :: 0 <= c < |cs| ==>
               -1 <= cs[c].current_process_id < |ps| && ds[c] == AfterCpu(ps, cs[c], cycle)
    ensures Linked(qs, ds, cycle + 1) && Leveled(qs, ds) && OnlyDispatched(qs, TickedAll(ps, cycle))
  {
    var ts := TickedAll(ps, cycle);
    forall i | 0 <= i < |ps|
      ensures ProcOk(qs, ds, cycle + 1, i) && LevelOk(qs, i) && SameProgress(qs[i], ts[i])
    {
      assert ProcOk(ps, cs, cycle, i) && LevelOk(ps, i);
      assert ts[i] == Ticked(ps[i], cycle);
      if ps[i].state == RUNNING {
        assert ds[ps[i].cpu_id] == AfterCpu(ps, cs[ps[i].cpu_id], cycle);
      }
    }
    forall c | 0 <= c < |ds| ensures CpuOk(qs, ds, c) && QuantumOk(qs, ds, c) {
      assert CpuOk(ps, cs, c) && QuantumOk(ps, cs, c);
      assert ds[c] == AfterCpu(ps, cs[c], cycle);
    }
  }

  /** The loop that advances the clock. */
  method Tick(p: array<Process>, cpu: array<CPU>, cycle: int) returns (finishing: int)
    requires Linked(p[..], cpu[..], cycle) && Leveled(p[..], cpu[..])
    modifies p, cpu
    ensures Linked(p[..], cpu[..], cycle + 1) && Leveled(p[..], cpu[..])
    ensures OnlyDispatched(p[..], TickedAll(old(p[..]), cycle))
    ensures AllTicked(old(p[..]), old(cpu[..]), p[..], cpu[..], cycle)
    ensures Finished(p[..]) == Finished(old(p[..])) + finishing
    ensures Left(p[..]) <= Left(old(p[..]))
    ensures AllBusy(old(cpu[..])) ==> Left(p[..]) == Left(old(p[..])) - cpu.Length
  {
    ghost var ps, cs := p[..], cpu[..];
    finishing := 0;
    var i := 0;
    while i < cpu.Length
      invariant TickState(ps, cs, p[..], cpu[..], i, cycle, finishing)
    {
      var done := TickCpu(p, cpu, i, cycle, ps, cs, finishing);
      finishing := finishing + done;
      i := i + 1;
    }
    AfterLinked(ps, p[..], cs, cpu[..], cycle);
    TickedExactly(ps, cs, p[..], cpu[..], cycle, finishing);
  }

  // ----- the history of a run -----

  /** A cycle as it was run: the process on each CPU, the level of each process, and the
      cycles that each CPU's quantum still had, this one included. */
  datatype Frame = Frame(row: seq<int>, levels: seq<int>, quanta: seq<int>)

  function FrameOf(ps: seq<Process>, cs: seq<CPU>): (f: Frame)
    ensures |f.row| == |f.quanta| == |cs| && |f.levels| == |ps|
    ensures forall c {:trigger f.row[c]} {:trigger f.quanta[c]} {:trigger cs[c]} :: 0 <= c < |cs| ==>
              f.row[c] == cs[c].current_process_id && f.quanta[c] == cs[c].time_quantum_left
    ensures forall i {:trigger f.levels[i]} {:trigger ps[i]} :: 0 <= i < |ps| ==> f.levels[i] == ps[i].priority_level
  {
    Frame(RowOf(cs), Levels(ps), seq(|cs|, c requires 0 <= c < |cs| => cs[c].time_quantum_left))
  }

  /** Between 1 and the level's whole quantum is left to a process that can be demoted. */
  predicate SlotOk(f: Frame, c: int)
    requires 0 <= c < |f.row| == |f.quanta|
  {
    && -1 <= f.row[c] < |f.levels|
    && (f.row[c] != -1 && f.levels[f.row[c]] < LEVELS - 1 ==> 1 <= f.quanta[c] <= Quantum(f.levels[f.row[c]]))
  }

  ghost predicate FrameOk(f: Frame, np: int, cpus: int) {
    && |f.row| == |f.quanta| == cpus && |f.levels| == np
    && (forall i {:trigger f.levels[i]} :: 0 <= i < np ==> 0 <= f.levels[i] < LEVELS)
    && (forall c {:trigger SlotOk(f, c)} :: 0 <= c < cpus ==> SlotOk(f, c))
  }

  /** The cycle is the last of process i's quantum. */
  ghost predicate Expires(f: Frame, i: int)
    requires 0 <= i < |f.levels| && |f.row| == |f.quanta|
  {
    f.levels[i] < LEVELS - 1 && exists c {:trigger f.row[c]} :: 0 <= c < |f.row| && f.row[c] == i && f.quanta[c] == 1
  }

  /** Process p had finished before cycle t. */
  predicate Over(p: Process, t: int) {
    p.state == FINISHED && p.completion_time <= t
  }

  /** The level in cycle t of process i, which is p, after the frame f of cycle t - 1. */
  ghost function NextLevel(f: Frame, p: Process, i: int, t: int): int
    requires 0 <= i < |f.levels| && |f.row| == |f.quanta|
  {
    if Over(p, t) then f.levels[i]
    else if t % BOOST_CYCLE == 0 then 0
    else if Expires(f, i) then f.levels[i] + 1
    else f.levels[i]
  }

  /** A process that goes on where it was has a cycle less; any other, and after a boost
      every one, starts the quantum of its level. */
  ghost predicate QuantumMoves(f: Frame, f': Frame, c: int, t: int)
    requires |f.row| == |f.quanta| == |f'.row| == |f'.quanta| && |f.levels| == |f'.levels| && 0 <= c < |f.row|
  {
    var i := f'.row[c];
    0 <= i < |f.levels| && f'.levels[i] < LEVELS - 1 ==>
      f'.quanta[c] == if f.row[c] == i && f.levels[i] == f'.levels[i] && t % BOOST_CYCLE != 0 then f.quanta[c] - 1
                      else Quantum(f'.levels[i])
  }

  /** Frame f' of cycle t comes after frame f: levels change only by demotion at the end of
      a quantum and by the boost. */
  ghost predicate Follows(f: Frame, f': Frame, ps: seq<Process>, t: int) {
    && |f.row| == |f.quanta| == |f'.row| == |f'.quanta| && |f.levels| == |f'.levels| == |ps|
    && (forall i {:trigger f'.levels[i]} :: 0 <= i < |ps| ==> f'.levels[i] == NextLevel(f, ps[i], i, t))
    && (forall c {:trigger QuantumMoves(f, f', c, t)} :: 0 <= c < |f.row| ==> QuantumMoves(f, f', c, t))
  }

  /** In the first cycle all are on level 0, with a whole quantum. */
  ghost predicate First(f: Frame)
    requires |f.row| == |f.quanta|
  {
    && (forall i {:trigger f.levels[i]} :: 0 <= i < |f.levels| ==> f.levels[i] == 0)
    && (forall c {:trigger f.row[c]} :: 0 <= c < |f.row| && f.row[c] != -1 ==> f.quanta[c] == Quantum(0))
  }

  /** Cycle t: the best levels ran, and levels and quanta are as the cycle before says. */
  ghost predicate FrameAt(fs: seq<Frame>, ps: seq<Process>, cpus: int, t: int)
    requires 0 <= t < |fs|
  {
    && FrameOk(fs[t], |ps|, cpus) && RowUrgent(fs[t].row, ps, fs[t].levels, t)
    && (if t == 0 then First(fs[0]) else Follows(fs[t - 1], fs[t], ps, t))
  }

  ghost predicate History(fs: seq<Frame>, ps: seq<Process>, cpus: int) {
    forall t {:trigger FrameAt(fs, ps, cpus, t)} :: 0 <= t < |fs| ==> FrameAt(fs, ps, cpus, t)
  }

  /** The levels and quanta at the end of the cycle of frame f, before cycle t. */
  ghost predicate LevelAfter(f: Frame, ps: seq<Process>, i: int, t: int)
    requires 0 <= i < |ps| == |f.levels| && |f.row| == |f.quanta|
  {
    ps[i].priority_level == if !Over(ps[i], t) && Expires(f, i) then f.levels[i] + 1 else f.levels[i]
  }

  ghost predicate QuantumAfter(f: Frame, ps: seq<Process>, bs: seq<CPU>, c: int)
    requires |ps| == |f.levels| && |f.row| == |f.quanta| == |bs| && 0 <= c < |bs|
  {
    var b, i := bs[c].current_process_id, f.row[c];
    && (b != -1 ==> b == i && 0 <= i < |ps| && ps[i].priority_level == f.levels[i])
    && (b != -1 && f.levels[i] < LEVELS - 1 ==> bs[c].time_quantum_left == f.quanta[c] - 1)
    && (b == -1 && i != -1 ==> 0 <= i < |ps| && (ps[i].state == FINISHED || ps[i].priority_level != f.levels[i]))
  }

  ghost predicate AfterFrame(f: Frame, ps: seq<Process>, bs: seq<CPU>, t: int) {
    && |ps| == |f.levels| && |f.row| == |f.quanta| == |bs|
    && (forall i {:trigger LevelAfter(f, ps, i, t)} :: 0 <= i < |ps| ==> LevelAfter(f, ps, i, t))
    && (forall c {:trigger QuantumAfter(f, ps, bs, c)} :: 0 <= c < |bs| ==> QuantumAfter(f, ps, bs, c))
  }

  lemma TickedAfterFrame(rs: seq<Process>, cs: seq<CPU>, qs: seq<Process>, ds: seq<CPU>, t: int)
    requires Linked(rs, cs, t) && Leveled(rs, cs) && AllTicked(rs, cs, qs, ds, t)
    ensures AfterFrame(FrameOf(rs, cs), qs, ds, t + 1)
  {
    var f, t' := FrameOf(rs, cs), t + 1;
    forall i | 0 <= i < |qs| ensures LevelAfter(f, qs, i, t') {
      assert ProcOk(rs, cs, t, i);
      if rs[i].state == RUNNING {
        assert CpuTicked(rs, cs, qs, ds, rs[i].cpu_id, t);
        assert f.row[rs[i].cpu_id] == i;
      }
      forall c | 0 <= c < |f.row| && f.row[c] == i ensures rs[i].state == RUNNING && rs[i].cpu_id == c {
        assert CpuOk(rs, cs, c);
      }
    }
    forall c | 0 <= c < |ds| ensures QuantumAfter(f, qs, ds, c) {
      assert CpuTicked(rs, cs, qs, ds, c, t) && CpuOk(rs, cs, c);
      if cs[c].current_process_id != -1 {
        assert ProcOk(rs, cs, t, cs[c].current_process_id);
      }
    }
  }

  ghost predicate CpuScheduled(rs: seq<Process>, bs: seq<CPU>, cs: seq<CPU>, c: int, t: int)
    requires 0 <= c < |cs| == |bs|
  {
    var i := cs[c].current_process_id;
    if i == bs[c].current_process_id then
      cs[c] == if t > 0 && t % BOOST_CYCLE == 0 then Refreshed(bs[c], |rs|) else bs[c]
    else
      0 <= i < |rs| && rs[i].state == RUNNING && cs[c].time_quantum_left == Quantum(rs[i].priority_level)
  }

  /** What the boost, when it is due, and the dispatch make of tables ps and bs. */
  ghost predicate Scheduled(ps: seq<Process>, bs: seq<CPU>, rs: seq<Process>, cs: seq<CPU>, t: int) {
    && |rs| == |ps| && |cs| == |bs|
    && (forall i {:trigger rs[i]} {:trigger ps[i]} :: 0 <= i < |ps| ==>
          rs[i].priority_level == (if t > 0 && t % BOOST_CYCLE == 0 then Boosted(ps[i]) else ps[i]).priority_level)
    && (forall c {:trigger CpuScheduled(rs, bs, cs, c, t)} :: 0 <= c < |cs| ==> CpuScheduled(rs, bs, cs, c, t))
  }

  lemma FrameFollows(f: Frame, ps: seq<Process>, bs: seq<CPU>, rs: seq<Process>, cs: seq<CPU>, t: int)
    requires AfterFrame(f, ps, bs, t) && t > 0 && Scheduled(ps, bs, rs, cs, t)
    requires OnlyDispatched(rs, ps) && Linked(ps, bs, t) && Linked(rs, cs, t)
    requires forall i {:trigger ps[i]} :: 0 <= i < |ps| && ps[i].state == FINISHED ==> ps[i].completion_time <= t
    ensures Follows(f, FrameOf(rs, cs), rs, t)
  {
    var f' := FrameOf(rs, cs);
    forall i | 0 <= i < |rs| ensures f'.levels[i] == NextLevel(f, rs[i], i, t) {
      assert LevelAfter(f, ps, i, t) && SameProgress(rs[i], ps[i]);
    }
    forall c | 0 <= c < |cs| ensures QuantumMoves(f, f', c, t) {
      assert QuantumAfter(f, ps, bs, c) && CpuScheduled(rs, bs, cs, c, t);
      assert CpuOk(rs, cs, c) && CpuOk(ps, bs, c);
      var i := f'.row[c];
      if i != -1 {
        assert SameProgress(rs[i], ps[i]) && LevelAfter(f, ps, i, t);
      }
    }
  }

  lemma FrameFirst(ps: seq<Process>, bs: seq<CPU>, rs: seq<Process>, cs: seq<CPU>)
    requires Scheduled(ps, bs, rs, cs, 0) && Linked(rs, cs, 0)
    requires forall i {:trigger ps[i]} :: 0 <= i < |ps| ==> ps[i].priority_level == 0
    requires forall c {:trigger bs[c]} :: 0 <= c < |bs| ==> bs[c].current_process_id == -1
    ensures First(FrameOf(rs, cs))
  {
    var f := FrameOf(rs, cs);
    forall c | 0 <= c < |f.row| && f.row[c] != -1 ensures f.quanta[c] == Quantum(0) {
      assert CpuScheduled(rs, bs, cs, c, 0) && bs[c].current_process_id == -1;
      assert rs[f.row[c]].priority_level == ps[f.row[c]].priority_level;
    }
  }

  lemma FrameIsOk(rs: seq<Process>, cs: seq<CPU>, t: int)
    requires Linked(rs, cs, t) && Leveled(rs, cs)
    ensures FrameOk(FrameOf(rs, cs), |rs|, |cs|)
  {
    var f := FrameOf(rs, cs);
    forall i | 0 <= i < |rs| ensures 0 <= f.levels[i] < LEVELS {
      assert LevelOk(rs, i);
    }
    forall c | 0 <= c < |cs| ensures SlotOk(f, c) {
      assert CpuOk(rs, cs, c) && QuantumOk(rs, cs, c);
    }
  }

  /** Who had finished by an earlier cycle never changes. */
  lemma OverStays(ps: seq<Process>, rs: seq<Process>, qs: seq<Process>, cs: seq<CPU>, i: int, cycle: int, t: int)
    requires OnlyDispatched(rs, ps) && OnlyDispatched(qs, TickedAll(rs, cycle)) && Linked(rs, cs, cycle)
    requires 0 <= i < |ps| && 0 <= t <= cycle
    ensures Over(qs[i], t) == Over(ps[i], t) == Over(rs[i], t)
    ensures Pending(qs[i], t) == Pending(ps[i], t) == Pending(rs[i], t)
    ensures SameJob(qs[i], ps[i]) && SameJob(qs[i], rs[i])
  {
    var ts := TickedAll(rs, cycle);
    assert SameProgress(rs[i], ps[i]) && SameProgress(qs[i], ts[i]) && ProcOk(rs, cs, cycle, i);
  }

  lemma FrameAtLater(fs: seq<Frame>, ps: seq<Process>, hs: seq<Frame>, qs: seq<Process>, cpus: int, t: int)
    requires 0 <= t < |fs| <= |hs| && FrameAt(fs, ps, cpus, t) && hs[t] == fs[t] && (t > 0 ==> hs[t - 1] == fs[t - 1])
    requires SameJobs(qs, ps)
    requires forall i {:trigger qs[i]} :: 0 <= i < |ps| ==>
               Over(qs[i], t) == Over(ps[i], t) && Pending(qs[i], t) == Pending(ps[i], t)
    ensures FrameAt(hs, qs, cpus, t)
  {
    RowUrgentLater(fs[t].row, ps, qs, fs[t].levels, t);
    if t > 0 {
      forall i | 0 <= i < |qs| ensures fs[t].levels[i] == NextLevel(fs[t - 1], qs[i], i, t) {
        assert Over(qs[i], t) == Over(ps[i], t);
      }
    }
  }

  /** The new frame joins the history, seen from after the tick. */
  lemma HistoryGrows(fs: seq<Frame>, f: Frame, ps: seq<Process>, rs: seq<Process>, cs: seq<CPU>, qs: seq<Process>)
    requires History(fs, ps, |cs|) && FrameAt(fs + [f], rs, |cs|, |fs|)
    requires OnlyDispatched(rs, ps) && OnlyDispatched(qs, TickedAll(rs, |fs|)) && Linked(rs, cs, |fs|)
    ensures History(fs + [f], qs, |cs|)
  {
    var hs := fs + [f];
    forall i, t | 0 <= i < |ps| && 0 <= t <= |fs|
      ensures Over(qs[i], t) == Over(ps[i], t) == Over(rs[i], t)
      ensures Pending(qs[i], t) == Pending(ps[i], t) == Pending(rs[i], t)
    {
      OverStays(ps, rs, qs, cs, i, |fs|, t);
    }
    forall i | 0 <= i < |ps| ensures SameJob(qs[i], ps[i]) && SameJob(qs[i], rs[i]) {
      OverStays(ps, rs, qs, cs, i, |fs|, 0);
    }
    assert SameJobs(qs, ps) && SameJobs(qs, rs);
    forall t | 0 <= t < |hs| ensures FrameAt(hs, qs, |cs|, t) {
      if t < |fs| {
        FrameAtLater(fs, ps, hs, qs, |cs|, t);
      } else {
        FrameAtLater(hs, rs, hs, qs, |cs|, t);
      }
    }
  }

  /** Cycles that a process has run before it can be on a level, since the last boost. */
  function Earned(level: int): int {
    if level <= 0 then 0 else if level == 1 then Quantum(0) else Quantum(0) + Quantum(1)
  }

  function LastBoost(t: int): int
    requires t >= 0
  {
    t - t % BOOST_CYCLE
  }

  /** Over a whole run a level is lost only by running: a process on level 1 has run at
      least the quantum of level 0 since the last boost, one on level 2 those of both
      levels, and a running one what its quantum lacks besides. */
  lemma {:induction false} LevelsAreEarned(g: seq<seq<int>>, fs: seq<Frame>, ps: seq<Process>, cpus: int, t: int,
                                           i: int)
    requires |g| == |fs| && (forall u {:trigger g[u]} :: 0 <= u < |g| ==> g[u] == fs[u].row)
    requires History(fs, ps, cpus) && 0 <= t < |fs| && 0 <= i < |ps| && !Over(ps[i], t)
    ensures |fs[t].levels| == |ps| && |fs[t].row| == |fs[t].quanta|
    ensures Ran(g, i, LastBoost(t), t) >= Earned(fs[t].levels[i])
    ensures fs[t].levels[i] >= 1 ==> Ran(g, i, LastBoost(t), t) >= 4
    ensures fs[t].levels[i] >= 2 ==> Ran(g, i, LastBoost(t), t) >= 12
    ensures forall c :: 0 <= c < |g[t]| && g[t][c] == i && fs[t].levels[i] < LEVELS - 1 ==>
              Ran(g, i, LastBoost(t), t) >= Earned(fs[t].levels[i]) + Quantum(fs[t].levels[i]) - fs[t].quanta[c]
  {
    assert FrameAt(fs, ps, cpus, t);
    if t % BOOST_CYCLE == 0 {
      assert t > 0 ==> fs[t].levels[i] == NextLevel(fs[t - 1], ps[i], i, t);
      forall c | 0 <= c < |g[t]| && g[t][c] == i ensures fs[t].quanta[c] == Quantum(fs[t].levels[i]) {
        assert t > 0 ==> QuantumMoves(fs[t - 1], fs[t], c, t);
      }
    } else {
      var f, f' := fs[t - 1], fs[t];
      LevelsAreEarned(g, fs, ps, cpus, t - 1, i);
      assert FrameAt(fs, ps, cpus, t - 1);
      assert LastBoost(t) == LastBoost(t - 1) && g[t - 1] == f.row;
      assert f'.levels[i] == NextLevel(f, ps[i], i, t);
      forall c | 0 <= c < |g[t]| && g[t][c] == i && f'.levels[i] < LEVELS - 1
        ensures Ran(g, i, LastBoost(t), t) >= Earned(f'.levels[i]) + Quantum(f'.levels[i]) - f'.quanta[c]
      {
        assert QuantumMoves(f, f', c, t);
      }
    }
  }

  // ----- the run -----

  /** The history up to now, and what it says of the tables between two cycles. */
  ghost predicate Recorded(fs: seq<Frame>, ps: seq<Process>, cs: seq<CPU>) {
    && Leveled(ps, cs) && History(fs, ps, |cs|)
    && (if fs == [] then
          (forall i {:trigger ps[i]} :: 0 <= i < |ps| ==> ps[i].priority_level == 0)
          && (forall c {:trigger cs[c]} :: 0 <= c < |cs| ==> cs[c].current_process_id == -1)
        else AfterFrame(fs[|fs| - 1], ps, cs, |fs|))
  }

  lemma RecordedNext(fs: seq<Frame>, g: seq<seq<int>>, ps: seq<Process>, bs: seq<CPU>,
                     rs: seq<Process>, cs: seq<CPU>, qs: seq<Process>, ds: seq<CPU>)
    requires |fs| == |g| && Recorded(fs, ps, bs) && Linked(ps, bs, |g|) && Chart(g, ps, |bs|)
    requires Scheduled(ps, bs, rs, cs, |g|) && OnlyDispatched(rs, ps) && Linked(rs, cs, |g|) && Leveled(rs, cs)
    requires UrgentBy(rs, cs, Levels(rs), |g|) && OnlyDispatched(qs, TickedAll(rs, |g|))
    requires AllTicked(rs, cs, qs, ds, |g|) && Leveled(qs, ds)
    ensures Recorded(fs + [FrameOf(rs, cs)], qs, ds)
  {
    var f, t := FrameOf(rs, cs), |g|;
    FrameIsOk(rs, cs, t);
    ChartDispatched(g, ps, rs, |cs|);
    RowUrgentNow(g, rs, cs, Levels(rs));
    forall i | 0 <= i < |ps| && ps[i].state == FINISHED ensures ps[i].completion_time <= t {
      assert Accounted(ps[i], g, i);
    }
    if t == 0 {
      FrameFirst(ps, bs, rs, cs);
    } else {
      FrameFollows(fs[t - 1], ps, bs, rs, cs, t);
    }
    assert FrameAt(fs + [f], rs, |cs|, t);
    HistoryGrows(fs, f, ps, rs, cs, qs);
    TickedAfterFrame(rs, cs, qs, ds, t);
  }

  /** The boost, when it is due. */
  method BoostIfDue(p: array<Process>, cpu: array<CPU>, cycle: int)
    requires Linked(p[..], cpu[..], cycle) && Leveled(p[..], cpu[..])
    modifies p, cpu
    ensures Linked(p[..], cpu[..], cycle) && Leveled(p[..], cpu[..]) && OnlyDispatched(p[..], old(p[..]))
    ensures forall i :: 0 <= i < p.Length ==>
              p[i] == if cycle > 0 && cycle % BOOST_CYCLE == 0 then Boosted(old(p[i])) else old(p[i])
    ensures forall c :: 0 <= c < cpu.Length ==>
              cpu[c] == if cycle > 0 && cycle % BOOST_CYCLE == 0 then Refreshed(old(cpu[c]), p.Length) else old(cpu[c])
  {
    DispatchedItself(p[..]);
    if cycle > 0 && cycle % BOOST_CYCLE == 0 {
      Boost(p, cpu, cycle);
    }
  }

  lemma PlacedBoosted(ps: seq<Process>, bs: seq<CPU>, ms: seq<Process>, ns: seq<CPU>, rs: seq<Process>, cs: seq<CPU>,
                      ranks: seq<int>, cycle: int)
    requires Linked(ps, bs, cycle) && |ms| == |ps| && |ns| == |bs| && Placed(ms, ns, rs, cs, ranks, cycle)
    requires forall i {:trigger ms[i]} :: 0 <= i < |ps| ==> ms[i].start_time == ps[i].start_time
    requires forall c {:trigger ns[c]} {:trigger bs[c]} :: 0 <= c < |bs| ==>
               ns[c].current_process_id == bs[c].current_process_id
    ensures Placed(ps, bs, rs, cs, ranks, cycle)
  {
    forall i | 0 <= i < |ps| ensures Dated(ps[i], rs[i], cycle) {
      assert Dated(ms[i], rs[i], cycle);
    }
    forall c | 0 <= c < |cs| ensures GivesWay(ranks, bs[c].current_process_id, cs[c].current_process_id) {
      assert GivesWay(ranks, ns[c].current_process_id, cs[c].current_process_id);
    }
  }

  lemma StartsStay(rs: seq<Process>, cs: seq<CPU>, qs: seq<Process>, ds: seq<CPU>, cycle: int)
    requires Linked(rs, cs, cycle) && AllTicked(rs, cs, qs, ds, cycle)
    ensures forall i {:trigger qs[i]} :: 0 <= i < |rs| ==> qs[i].start_time == rs[i].start_time
  {
    forall i | 0 <= i < |rs| ensures qs[i].start_time == rs[i].start_time {
      assert ProcOk(rs, cs, cycle, i);
      assert rs[i].state == RUNNING ==> CpuTicked(rs, cs, qs, ds, rs[i].cpu_id, cycle);
    }
  }

  /** The boost and the dispatch of a cycle. */
  method Schedule(p: array<Process>, cpu: array<CPU>, cycle: int)
    requires Linked(p[..], cpu[..], cycle) && Leveled(p[..], cpu[..])
    modifies p, cpu
    ensures Linked(p[..], cpu[..], cycle) && Leveled(p[..], cpu[..]) && OnlyDispatched(p[..], old(p[..]))
    ensures UrgentBy(p[..], cpu[..], Levels(p[..]), cycle)
    ensures Scheduled(old(p[..]), old(cpu[..]), p[..], cpu[..], cycle)
    ensures Placed(old(p[..]), old(cpu[..]), p[..], cpu[..], Levels(p[..]), cycle)
  {
    ghost var ps, bs := p[..], cpu[..];
    BoostIfDue(p, cpu, cycle);
    ghost var ms, ns := p[..], cpu[..];
    Dispatch(p, cpu, cycle);
    DispatchedTrans(p[..], ms, ps);
    ghost var rs, cs := p[..], cpu[..];
    forall i | 0 <= i < |ps|
      ensures rs[i].priority_level ==
                (if cycle > 0 && cycle % BOOST_CYCLE == 0 then Boosted(ps[i]) else ps[i]).priority_level
    {
      assert Levels(rs)[i] == Levels(ms)[i];
    }
    forall c | 0 <= c < |cs| ensures CpuScheduled(rs, bs, cs, c, cycle) {
      assert CpuGiven(rs, ns, cs, c);
    }
    PlacedBoosted(ps, bs, ms, ns, rs, cs, Levels(rs), cycle);
  }

  /** One turn of the main loop. */
  method Cycle(p: array<Process>, cpu: array<CPU>, cycle: int, ghost ps0: seq<Process>, ghost g: seq<seq<int>>,
               ghost finished: int, ghost full: int, ghost part: int, ghost fs: seq<Frame>)
    returns (row: seq<int>, finishing: int, ghost full': int, ghost part': int, ghost frame: Frame)
    requires cycle == |g| == |fs| && Progress(ps0, p[..], cpu[..], g, finished, full, part)
    requires Recorded(fs, p[..], cpu[..])
    modifies p, cpu
    ensures Progress(ps0, p[..], cpu[..], g + [row], finished + finishing, full', part')
    ensures Recorded(fs + [frame], p[..], cpu[..]) && frame.row == row
  {
    ghost var ps, bs := p[..], cpu[..];
    Schedule(p, cpu, cycle);
    ghost var rs, cs := p[..], cpu[..];
    UrgentByNoIdling(rs, cs, Levels(rs), cycle);
    row, frame := RowOf(cpu[..]), FrameOf(rs, cs);
    finishing := Tick(p, cpu, cycle);
    RecordedNext(fs, g, ps, bs, rs, cs, p[..], cpu[..]);
    StartsStay(rs, cs, p[..], cpu[..], cycle);
    full', part' := ProgressNext(ps0, ps, bs, rs, cs, p[..], cpu[..], Levels(rs), g, finished, full, part);
  }

  lemma Begin(ps0: seq<Process>, ps: seq<Process>, cs: seq<CPU>)
    requires Fresh(ps0) && |ps| == |ps0| && |cs| > 0
    requires forall c :: 0 <= c < |cs| ==> cs[c].current_process_id == -1
    requires forall j :: 0 <= j < |ps0| ==> ps[j] == ps0[j].(priority_level := 0)
    ensures Progress(ps0, ps, cs, [], 0, 0, 0) && Recorded([], ps, cs)
  {
    ProgressStart(ps, cs);
    forall j | 0 <= j < |ps| ensures SameJob(ps[j], ps0[j]) {
    }
    SameJobsBound(ps, ps0);
  }

  /** run_mlfq(): the chart accounts for every process exactly, every process finishes, and
      the run ends within the makespan bound.  In every cycle the best levels ran, and over
      the whole run levels change only by demotion at the end of a quantum and by the
      boost. */
  method RunMlfq(p: array<Process>, cpus: int) returns (gantt: seq<seq<int>>, ghost history: seq<Frame>)
    requires cpus > 0 && Fresh(p[..])
    modifies p
    ensures SameJobs(p[..], old(p[..]))
    ensures forall i :: 0 <= i < p.Length ==> p[i].state == FINISHED && p[i].remaining_time == 0
    ensures Chart(gantt, p[..], cpus) && AllBegun(gantt, p[..])
    ensures |gantt| <= MakespanBound(old(p[..]), cpus)
    ensures |history| == |gantt| && forall t :: 0 <= t < |gantt| ==> gantt[t] == history[t].row
    ensures History(history, p[..], cpus)
  {
    ghost var ps0 := p[..];
    var cpu := new CPU[cpus](i => CPU(i, -1, 0));
    var i := 0;
    while i < p.Length
      invariant 0 <= i <= p.Length
      invariant forall j :: 0 <= j < p.Length ==> p[j] == if j < i then ps0[j].(priority_level := 0) else ps0[j]
      modifies p
    {
      p[i] := p[i].(priority_level := 0);
      i := i + 1;
    }
    ghost var ps := p[..];
    assert forall j :: 0 <= j < |ps| ==> ps[j] == p[j];
    Begin(ps0, ps, cpu[..]);
    var cycle, finished := 0, 0;
    gantt, history := [], [];
    ghost var full, part := 0, 0;
    BoundSign(ps0, cpus);
    while finished < p.Length
      invariant cpu.Length == cpus && cycle == |gantt| == |history| <= MakespanBound(ps0, cpus)
      invariant Progress(ps0, p[..], cpu[..], gantt, finished, full, part) && Recorded(history, p[..], cpu[..])
      invariant forall t :: 0 <= t < |gantt| ==> gantt[t] == history[t].row
      decreases MakespanBound(ps0, cpus) - cycle
    {
      StillBelow(ps0, p[..], cpu[..], gantt, finished, full, part);
      var row, finishing;
      ghost var frame;
      row, finishing, full, part, frame := Cycle(p, cpu, cycle, ps0, gantt, finished, full, part, history);
      gantt, history := gantt + [row], history + [frame];
      finished := finished + finishing;
      cycle := cycle + 1;
    }
    AllDone(ps0, p[..], cpu[..], gantt, finished, full, part);
  }
}
