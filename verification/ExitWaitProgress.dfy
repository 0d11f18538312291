/** The locks of exit, wait and fork never stop a process for good: from every state that a
    run of ExitWait reaches there is a run in which it gets through. */
module ExitWaitProgress {
  import opened ExitWait
  import opened ExitWaitRuns

  /** Steps that only take a process through a critical section that it is in. */
  predicate Settling(a: Action) {
    a.ExitStep? || (a.WaitStep? && !a.copyFails) || a.Switch? || a.ForkRelease? || a.ForkUnlock?
  }

  /** Settling steps in which p does not look for its children. */
  ghost predicate Settles(s: State, run: seq<Action>, p: int)
    requires IsRun(s, run) && Slot(s, p)
    decreases |run|
  {
    run != [] ==>
      && Settling(run[0]) && !(run[0].p == p && s.procs[p].pc.Scan?) && |Next(s, run[0]).procs| == |s.procs|
      && Settles(Next(s, run[0]), run[1..], p)
  }

  lemma {:induction false} SettlesThen(s: State, run: seq<Action>, more: seq<Action>, p: int)
    requires IsRun(s, run) && Slot(s, p) && Settles(s, run, p) && IsRun(After(s, run), more)
    requires Slot(After(s, run), p) && Settles(After(s, run), more, p)
    ensures IsRun(s, run + more) && After(s, run + more) == After(After(s, run), more)
    ensures Settles(s, run + more, p)
    decreases |run|
  {
    RunThen(s, run, more);
    if run == [] {
      assert run + more == more;
    } else {
      assert (run + more)[1..] == run[1..] + more;
      SettlesThen(Next(s, run[0]), run[1..], more, p);
    }
    hide Next, Enabled;
  }

  // ----- what settling leaves alone -----

  /** p is to wait, or is waiting, for `target`, and c is a ZOMBIE that it wants. */
  predicate Owed(s: State, p: int, target: Target, c: int) {
    && Slot(s, p) && Sought(s, p, target, c) && s.procs[c].st == ZOMBIE
    && (s.procs[p].pc == User || (InWait(s.procs[p].pc) && s.procs[p].pc.target == target))
  }

  /** Process p is at user level, and its pid is this one. */
  predicate AtUser(s: State, p: int, pid: int) {
    Slot(s, p) && s.procs[p].pc == User && s.procs[p].pid == pid
  }

  lemma UserStays(s: State, a: Action, p: int, pid: int)
    requires AllOk(s) && Enabled(s, a) && Settling(a) && AtUser(s, p, pid)
    ensures AtUser(Next(s, a), p, pid) && a.p != p
  {
    Facts(s, p);
    SameSize(s, a);
    if a.p != p {
      OthersMove(s, a, p);
    }
    hide AllOk, Inv, ScanOk, LockOk, ParentOk, ExitNext, WaitNext;
    if a.ExitStep? {
      ExitRecord(s, a.p, p);
    } else if a.WaitStep? {
      WaitRecord(s, a.p, a.copyFails, p);
    }
  }

  lemma FreeStays(s: State, a: Action, c: int)
    requires AllOk(s) && Enabled(s, a) && Settling(a) && Slot(s, c) && s.procs[c].st == UNUSED
    ensures Next(s, a).procs[c].st == UNUSED
  {
    Facts(s, c);
    Facts(s, a.p);
    hide AllOk, Inv, ScanOk, LockOk, ParentOk;
    if a.ExitStep? {
      ExitRecord(s, a.p, c);
      hide ExitNext;
    } else if a.WaitStep? {
      WaitRecord(s, a.p, a.copyFails, c);
      hide WaitNext;
    }
  }

  /** p, in wait and not in its scan, goes on in wait. */
  lemma WaitsOn(s: State, a: Action, p: int)
    requires Enabled(s, a) && Settling(a) && a.p == p && Slot(s, p) && InWait(s.procs[p].pc) && !s.procs[p].pc.Scan?
    ensures var pc' := Next(s, a).procs[p].pc; InWait(pc') && pc'.target == s.procs[p].pc.target
    ensures |Next(s, a).procs| == |s.procs|
    ensures forall c {:trigger SameKin(s, Next(s, a), c)} :: Slot(s, c) ==> SameKin(s, Next(s, a), c)
    ensures forall c {:trigger Next(s, a).procs[c]} :: Slot(s, c) && c != p ==> Next(s, a).procs[c] == s.procs[c]
  {
  }

  lemma OwedKin(s: State, a: Action, p: int, c: int)
    requires AllOk(s) && Enabled(s, a) && Settling(a) && Slot(s, p) && Slot(s, c) && a.p != p
    requires s.procs[c].st == ZOMBIE && s.procs[c].parent == p
    ensures SameKin(s, Next(s, a), c)
  {
    Facts(s, c);
    Facts(s, a.p);
    SameSize(s, a);
    hide AllOk, Inv, ScanOk, LockOk;
    if a.ExitStep? {
      ExitTouches(s, a.p, c);
      hide ExitNext;
    } else if a.WaitStep? {
      WaitTouches(s, a.p, a.copyFails, c);
      hide WaitNext;
    }
  }

  lemma OwedStays(s: State, a: Action, p: int, target: Target, c: int)
    requires AllOk(s) && Enabled(s, a) && Settling(a) && Owed(s, p, target, c)
    requires !(a.p == p && s.procs[p].pc.Scan?)
    ensures Owed(Next(s, a), p, target, c)
  {
    Facts(s, p);
    Facts(s, c);
    SameSize(s, a);
    ExitStays(s, a, c);
    if a.p != p {
      OthersMove(s, a, p);
      OwedKin(s, a, p, c);
    } else if s.procs[p].pc != User {
      WaitsOn(s, a, p);
    }
    hide AllOk, Inv, Next, LockOk, ScanOk, WaitEnabled, ExitEnabled;
  }

  lemma {:induction false} OwedLasts(s: State, run: seq<Action>, p: int, target: Target, c: int)
    requires AllOk(s) && IsRun(s, run) && Owed(s, p, target, c) && Settles(s, run, p)
    ensures Owed(After(s, run), p, target, c)
    decreases |run|
  {
    hide AllOk, Next, Enabled, Owed;
    if run != [] {
      AllStep(s, run[0]);
      OwedStays(s, run[0], p, target, c);
      OwedLasts(Next(s, run[0]), run[1..], p, target, c);
    }
  }

  lemma {:induction false} UserLasts(s: State, run: seq<Action>, p: int, pid: int)
    requires AllOk(s) && IsRun(s, run) && AtUser(s, p, pid) && Settles(s, run, p)
    ensures AtUser(After(s, run), p, pid)
    decreases |run|
  {
    hide AllOk, Next, Enabled, AtUser;
    if run != [] {
      AllStep(s, run[0]);
      UserStays(s, run[0], p, pid);
      UserLasts(Next(s, run[0]), run[1..], p, pid);
    }
  }

  lemma {:induction false} FreeLasts(s: State, run: seq<Action>, p: int, c: int)
    requires AllOk(s) && IsRun(s, run) && Slot(s, p) && Settles(s, run, p) && Slot(s, c) && s.procs[c].st == UNUSED
    ensures Slot(After(s, run), c) && After(s, run).procs[c].st == UNUSED
    decreases |run|
  {
    hide AllOk, Next, Enabled;
    if run != [] {
      AllStep(s, run[0]);
      FreeStays(s, run[0], c);
      FreeLasts(Next(s, run[0]), run[1..], p, c);
    }
  }

  // ----- the processes' own locks -----

  predicate LockFree(s: State, i: int) {
    Slot(s, i) ==> s.procs[i].lock == NOBODY
  }

  /** How many steps of its holder the lock of slot i is away from being free. */
  function LockSteps(s: State, i: int): nat
    requires Slot(s, i)
  {
    if s.procs[i].lock == NOBODY then 0
    else
      match s.procs[i].pc
      case SleepRelease(_) => 3
      case SleepMark(_) => 2
      case ExitMark => 3
      case ExitZombie => 2
      case _ => 1
  }

  /** The step that the holder of i's lock takes. */
  function LockStep(s: State, i: int): Action
    requires Slot(s, i)
  {
    if s.procs[i].lock != i then ForkRelease(s.procs[i].lock)
    else
      match s.procs[i].pc
      case SleepRelease(_) => WaitStep(i, false)
      case SleepMark(_) => WaitStep(i, false)
      case ExitMark => ExitStep(i)
      case ExitZombie => ExitStep(i)
      case _ => Switch(i)
  }

  lemma LockStepOk(s: State, i: int)
    requires AllOk(s) && Slot(s, i) && s.procs[i].lock != NOBODY
    ensures var a := LockStep(s, i);
            && Enabled(s, a) && Settling(a) && (Slot(s, a.p) ==> !s.procs[a.p].pc.Scan?)
            && |Next(s, a).procs| == |s.procs| && LockSteps(Next(s, a), i) < LockSteps(s, i)
            && (Next(s, a).waitLock == s.waitLock || Next(s, a).waitLock == NOBODY)
            && forall j {:trigger LockFree(Next(s, a), j)} :: LockFree(s, j) ==> LockFree(Next(s, a), j)
  {
    Facts(s, i);
    var l := s.procs[i].lock;
    if l != i {
      Facts(s, l);
    }
    hide AllOk, Inv, ScanOk, ParentOk;
  }

  /** A run that frees the lock of slot i. */
  lemma {:induction false} FreeLock(s: State, i: int, p: int) returns (more: seq<Action>)
    requires AllOk(s) && Slot(s, i) && Slot(s, p)
    ensures IsRun(s, more) && Settles(s, more, p) && AllOk(After(s, more)) && |After(s, more).procs| == |s.procs|
    ensures LockFree(After(s, more), i)
    ensures forall j {:trigger LockFree(After(s, more), j)} :: LockFree(s, j) ==> LockFree(After(s, more), j)
    ensures After(s, more).waitLock == s.waitLock || After(s, more).waitLock == NOBODY
    decreases LockSteps(s, i)
  {
    if s.procs[i].lock == NOBODY {
      more := [];
    } else {
      var a := LockStep(s, i);
      LockStepOk(s, i);
      AllStep(s, a);
      hide AllOk, Next, Enabled, LockSteps, LockStep, LockFree;
      var rest := FreeLock(Next(s, a), i, p);
      more := [a] + rest;
      assert more[1..] == rest;
    }
  }

  /** A run that frees the locks of all slots from i on. */
  lemma {:induction false} FreeLocks(s: State, i: int, p: int) returns (more: seq<Action>)
    requires AllOk(s) && 0 <= i <= |s.procs| && Slot(s, p)
    requires forall j {:trigger LockFree(s, j)} :: j < i ==> LockFree(s, j)
    ensures IsRun(s, more) && Settles(s, more, p) && AllOk(After(s, more)) && |After(s, more).procs| == |s.procs|
    ensures forall j {:trigger LockFree(After(s, more), j)} :: LockFree(After(s, more), j)
    ensures After(s, more).waitLock == s.waitLock || After(s, more).waitLock == NOBODY
    decreases |s.procs| - i
  {
    if i == |s.procs| {
      more := [];
      assert forall j {:trigger LockFree(s, j)} :: j >= i ==> LockFree(s, j);
      hide AllOk;
    } else {
      var first := FreeLock(s, i, p);
      hide AllOk, Next, Enabled, LockFree;
      var rest := FreeLocks(After(s, first), i + 1, p);
      SettlesThen(s, first, rest, p);
      more := first + rest;
    }
  }

  // ----- wait_lock -----

  function Left(n: int, i: int): nat {
    if i < n then n - i else 0
  }

  /** A bound on the steps in which the holder of wait_lock gets rid of it. */
  function WaitSteps(s: State, h: int): nat
    requires Slot(s, h)
  {
    var n := |s.procs|;
    match s.procs[h].pc
    case Reparent(i) => Left(n, i) * (n + 3) + n + 5
    case WakeInit(i, j) => Left(n, i + 1) * (n + 3) + Left(n, j) + n + 6
    case WakeParent(j) => Left(n, j) + 4
    case ExitLock => 3
    case ExitMark => 2
    case Scan(_, i, _) => Left(n, i) + 3
    case SleepLock(_) => 2
    case _ => 1
  }

  function HolderStep(s: State, h: int): Action
    requires Slot(s, h)
  {
    var pc := s.procs[h].pc;
    if pc.ForkParent? then ForkUnlock(h) else if Exiting(pc) then ExitStep(h) else WaitStep(h, false)
  }

  ghost predicate OthersFree(s: State, h: int) {
    forall j {:trigger LockFree(s, j)} :: j != h ==> LockFree(s, j)
  }

  /** The holder's own lock is free until it takes it. */
  lemma HolderLock(s: State, h: int)
    requires AllOk(s) && Slot(s, h) && s.waitLock == h
    ensures s.procs[h].pc.SleepRelease? || s.procs[h].pc.ExitMark? || s.procs[h].pc.ExitZombie? || LockFree(s, h)
    ensures HoldsWaitLock(s.procs[h].pc) && RecordOk(s.procs[h]) && ScanOk(s, h)
    ensures !s.procs[h].pc.ExitZombie? ==> s.procs[h].st == RUNNING
  {
    Facts(s, h);
    if Slot(s, s.procs[h].lock) {
      Facts(s, s.procs[h].lock);
    }
  }

  lemma HolderEnabled(s: State, h: int)
    requires AllOk(s) && Slot(s, h) && s.waitLock == h && OthersFree(s, h)
    ensures Enabled(s, HolderStep(s, h)) && Settling(HolderStep(s, h))
  {
    HolderLock(s, h);
    hide AllOk;
    assert s.procs[h].pc.WakeInit? ==> LockFree(s, s.procs[h].pc.j);
    assert s.procs[h].pc.WakeParent? ==> LockFree(s, s.procs[h].pc.j);
    assert s.procs[h].pc.Scan? ==> LockFree(s, s.procs[h].pc.i);
  }

  lemma LeftTimes(n: nat, i: int)
    requires i < n
    ensures Left(n, i) * (n + 3) == Left(n, i + 1) * (n + 3) + n + 3
  {
  }

  lemma ExitMoves(s: State, h: int)
    requires Slot(s, h) && ExitEnabled(s, h) && s.waitLock == h && HoldsWaitLock(s.procs[h].pc) && RecordOk(s.procs[h])
    ensures var s' := ExitNext(s, h);
            && (s'.waitLock == NOBODY || (s'.waitLock == h && WaitSteps(s', h) < WaitSteps(s, h)))
            && |s'.procs| == |s.procs| && !s'.procs[h].pc.Scan?
            && forall j {:trigger LockFree(s', j)} :: j != h && LockFree(s, j) ==> LockFree(s', j)
  {
    if s.procs[h].pc.Reparent? && s.procs[h].pc.i < |s.procs| {
      LeftTimes(|s.procs|, s.procs[h].pc.i);
    }
  }

  lemma WaitMoves(s: State, h: int)
    requires Slot(s, h) && WaitEnabled(s, h) && s.waitLock == h && HoldsWaitLock(s.procs[h].pc)
    ensures var s' := WaitNext(s, h, false);
            && (s'.waitLock == NOBODY || (s'.waitLock == h && WaitSteps(s', h) < WaitSteps(s, h)))
            && |s'.procs| == |s.procs| && (s'.procs[h].pc.Scan? ==> s.procs[h].pc.Scan?)
            && forall j {:trigger LockFree(s', j)} :: j != h && LockFree(s, j) ==> LockFree(s', j)
  {
  }

  lemma HolderMoves(s: State, h: int)
    requires AllOk(s) && Slot(s, h) && s.waitLock == h && OthersFree(s, h)
    ensures Enabled(s, HolderStep(s, h)) && Settling(HolderStep(s, h)) && HolderStep(s, h).p == h
    ensures var s' := Next(s, HolderStep(s, h));
            && |s'.procs| == |s.procs| && OthersFree(s', h)
            && (s'.waitLock == NOBODY || (s'.waitLock == h && WaitSteps(s', h) < WaitSteps(s, h)))
            && (s'.procs[h].pc.Scan? ==> s.procs[h].pc.Scan?)
  {
    HolderEnabled(s, h);
    HolderLock(s, h);
    var a := HolderStep(s, h);
    if a.ExitStep? {
      ExitMoves(s, h);
    } else if a.WaitStep? {
      WaitMoves(s, h);
    }
    var s' := Next(s, a);
    hide AllOk, ScanOk, ExitNext, WaitNext, ExitEnabled, WaitEnabled, WaitSteps;
    forall j | j != h && LockFree(s, j) ensures LockFree(s', j) {
    }
  }

  /** A run of the holder of wait_lock alone that lets it go. */
  lemma {:induction false} FreeWait(s: State, h: int, p: int) returns (more: seq<Action>)
    requires AllOk(s) && Slot(s, h) && s.waitLock == h && OthersFree(s, h) && Slot(s, p)
    requires !(h == p && s.procs[p].pc.Scan?)
    ensures IsRun(s, more) && Settles(s, more, p) && AllOk(After(s, more)) && |After(s, more).procs| == |s.procs|
    ensures After(s, more).waitLock == NOBODY
    ensures Exiting(s.procs[h].pc) ==> SameExit(s, After(s, more), h) && After(s, more).procs[h].st == ZOMBIE
    decreases WaitSteps(s, h)
  {
    var a := HolderStep(s, h);
    HolderMoves(s, h);
    AllStep(s, a);
    var s1 := Next(s, a);
    if Exiting(s.procs[h].pc) {
      ExitStays(s, a, h);
    }
    if s1.waitLock == NOBODY {
      more := [a];
      assert more[1..] == [] && IsRun(s1, []) && After(s1, []) == s1 && Settles(s1, [], p);
      Facts(s1, h);
    } else {
      var rest := FreeWait(s1, h, p);
      more := [a] + rest;
      assert more[1..] == rest;
    }
    hide AllOk, Next, Enabled, WaitSteps, HolderStep, OthersFree;
  }

  /** A run after which all locks are free, but for wait_lock if p has it for its scan. */
  lemma FreeAll(s: State, p: int) returns (more: seq<Action>)
    requires AllOk(s) && Slot(s, p)
    ensures IsRun(s, more) && Settles(s, more, p) && AllOk(After(s, more)) && |After(s, more).procs| == |s.procs|
    ensures forall j {:trigger LockFree(After(s, more), j)} :: LockFree(After(s, more), j)
    ensures After(s, more).waitLock == NOBODY
         || (After(s, more).waitLock == p && After(s, more).procs[p].pc.Scan?)
  {
    more := FreeLocks(s, 0, p);
    var s1 := After(s, more);
    if s1.waitLock != NOBODY && !(s1.waitLock == p && s1.procs[p].pc.Scan?) {
      assert Slot(s1, s1.waitLock);
      var free := FreeWait(s1, s1.waitLock, p);
      SettlesThen(s, more, free, p);
      var again := FreeLocks(After(s1, free), 0, p);
      SettlesThen(s, more + free, again, p);
      more := more + free + again;
    }
    hide AllOk, Next, Enabled, LockFree;
  }

  /** p is brought to run. */
  lemma Run(s: State, p: int) returns (more: seq<Action>)
    requires AllOk(s) && Slot(s, p) && LockFree(s, p)
    requires Live(s, p) && (s.procs[p].st == SLEEPING ==> s.procs[p].chan == ELSEWHERE)
    ensures IsRun(s, more)
    ensures After(s, more) == Put(s, p, s.procs[p].(st := RUNNING))
  {
    if s.procs[p].st == RUNNING {
      more := [];
      assert s.procs[p := s.procs[p]] == s.procs;
    } else if s.procs[p].st == RUNNABLE {
      more := [Dispatch(p)];
      Once(s, Dispatch(p));
    } else {
      Once(s, WakeElsewhere(p));
      Once(Next(s, WakeElsewhere(p)), Dispatch(p));
      RunThen(s, [WakeElsewhere(p)], [Dispatch(p)]);
      more := [WakeElsewhere(p)] + [Dispatch(p)];
      assert After(s, more).procs == s.procs[p := s.procs[p].(st := RUNNING)];
    }
    hide AllOk;
  }

  // ----- getting through -----

  /** p alone begins its scan. */
  lemma {:induction false} BeginScan(s: State, p: int, target: Target) returns (more: seq<Action>)
    requires Running(s, p) && s.waitLock == NOBODY && LockFree(s, p)
    requires s.procs[p].pc == User || s.procs[p].pc == Asleep(target) || s.procs[p].pc == Reacquire(target)
    ensures IsRun(s, more)
    ensures var s' := After(s, more);
            && Running(s', p) && s'.procs[p].pc == Scan(target, 0, false) && s'.waitLock == p
            && s'.procs == s.procs[p := s'.procs[p]] && LockFree(s', p) && s'.procs[p].killed == s.procs[p].killed
    decreases s.procs[p].pc.Asleep?
  {
    var a := if s.procs[p].pc == User then Wait(p, target) else WaitStep(p, false);
    Once(s, a);
    more := [a];
    if s.procs[p].pc.Asleep? {
      var rest := BeginScan(Next(s, a), p, target);
      RunThen(s, more, rest);
      more := more + rest;
    }
  }

  /** With the locks free nothing but the scheduler keeps p from its scan. */
  lemma Awake(s: State, p: int, target: Target, c: int)
    requires AllOk(s) && Owed(s, p, target, c) && s.waitLock == NOBODY && LockFree(s, p)
    ensures Live(s, p) && (s.procs[p].st == SLEEPING ==> s.procs[p].chan == ELSEWHERE) && c != p
    ensures s.procs[p].pc == User || s.procs[p].pc == Asleep(target) || s.procs[p].pc == Reacquire(target)
  {
    Facts(s, p);
    assert NotMissed(s, p, c);
    hide AllOk, Inv, ScanOk, ParentOk, ForkOk;
  }

  /** p, about to wait or in wait with all locks free, begins its scan. */
  lemma ToScan(s: State, p: int, target: Target, c: int) returns (more: seq<Action>)
    requires AllOk(s) && Owed(s, p, target, c) && s.waitLock == NOBODY && LockFree(s, p)
    ensures IsRun(s, more)
    ensures var s' := After(s, more);
            && Running(s', p) && s'.procs[p].pc == Scan(target, 0, false) && s'.waitLock == p && Owed(s', p, target, c)
            && s'.procs == s.procs[p := s'.procs[p]] && LockFree(s', p)
  {
    Awake(s, p, target, c);
    hide AllOk;
    more := Run(s, p);
    var s1 := After(s, more);
    assert s1.procs[p].pc == s.procs[p].pc && s1.waitLock == s.waitLock;
    var scan := BeginScan(s1, p, target);
    RunThen(s, more, scan);
    more := more + scan;
    hide Next, Enabled, After, IsRun;
    assert s1.procs[p := After(s1, scan).procs[p]] == s.procs[p := After(s1, scan).procs[p]];
  }

  lemma ScanPasses(s: State, p: int)
    requires Running(s, p) && s.procs[p].pc.Scan? && 0 <= s.procs[p].pc.i < |s.procs| && LockFree(s, s.procs[p].pc.i)
    requires var t, i := s.procs[p].pc.target, s.procs[p].pc.i; !(Sought(s, p, t, i) && s.procs[i].st == ZOMBIE)
    ensures var t, i, kids := s.procs[p].pc.target, s.procs[p].pc.i, s.procs[p].pc.kids;
            && Enabled(s, WaitStep(p, false))
            && Next(s, WaitStep(p, false)) == At(s, p, Scan(t, i + 1, kids || Sought(s, p, t, i)))
  {
  }

  /** The scan, with all locks free, gets to a ZOMBIE that it wants. */
  lemma {:induction false} ToZombie(s: State, p: int, target: Target, c: int) returns (more: seq<Action>, pid: int)
    requires AllOk(s) && Owed(s, p, target, c) && Running(s, p) && s.procs[p].pc.Scan?
    requires forall j {:trigger LockFree(s, j)} :: LockFree(s, j)
    ensures IsRun(s, more) && Enabled(After(s, more), WaitStep(p, false))
    ensures Reaps(After(s, more), WaitStep(p, false), pid) && After(s, more).procs[p].pc.target == target
    decreases |s.procs| - s.procs[p].pc.i
  {
    ScanKnows(s, p);
    var i := s.procs[p].pc.i;
    var a := WaitStep(p, false);
    assert i < |s.procs| && LockFree(s, i);
    if Sought(s, p, target, i) && s.procs[i].st == ZOMBIE {
      more, pid := [], s.procs[i].pid;
    } else {
      ScanPasses(s, p);
      AllStep(s, a);
      var s1 := Next(s, a);
      forall j ensures LockFree(s1, j) {
        assert LockFree(s, j);
      }
      var rest;
      rest, pid := ToZombie(s1, p, target, c);
      more := [a] + rest;
      assert more[1..] == rest;
    }
    hide AllOk;
  }

  lemma ScanRuns(s: State, p: int)
    requires AllOk(s) && Slot(s, p) && s.procs[p].pc.Scan?
    ensures Running(s, p) && s.waitLock == p
  {
    Facts(s, p);
  }

  /** From every state that a run reaches: a process that waits, or is to wait, for a ZOMBIE
      child gets it.  There is a run of the processes' own steps to the point where the
      wait collects such a child. */
  lemma WaitCanCollect(n: nat, run: seq<Action>, p: int, target: Target, c: int)
      returns (more: seq<Action>, pid: int)
    requires n > 0 && IsRun(Boot(n), run) && Owed(After(Boot(n), run), p, target, c)
    ensures IsRun(Boot(n), run + more) && Enabled(After(Boot(n), run + more), WaitStep(p, false))
    ensures Reaps(After(Boot(n), run + more), WaitStep(p, false), pid)
    ensures After(Boot(n), run + more).procs[p].pc.target == target
  {
    var s := Reached(n, run);
    more := FreeAll(s, p);
    OwedLasts(s, more, p, target, c);
    var s1 := After(s, more);
    if s1.waitLock == NOBODY {
      assert LockFree(s1, p);
      var scan := ToScan(s1, p, target, c);
      RunThen(s, more, scan);
      more := more + scan;
      AllRun(s1, scan);
    }
    var s2 := After(s, more);
    ScanRuns(s2, p);
    forall j ensures LockFree(s2, j) {
      assert LockFree(s1, j);
    }
    var rest;
    rest, pid := ToZombie(s2, p, target, c);
    RunThen(s, more, rest);
    more := more + rest;
    RunThen(Boot(n), run, more);
    hide AllOk, Next, Enabled, Owed;
  }

  // ----- kill -----

  predicate Waits(s: State, p: int, target: Target) {
    Slot(s, p) && InWait(s.procs[p].pc) && s.procs[p].pc.target == target
  }

  lemma WaitsStays(s: State, a: Action, p: int, target: Target)
    requires AllOk(s) && Enabled(s, a) && Settling(a) && Waits(s, p, target)
    requires !(a.p == p && s.procs[p].pc.Scan?)
    ensures Waits(Next(s, a), p, target)
  {
    Facts(s, p);
    SameSize(s, a);
    if a.p == p {
      WaitsOn(s, a, p);
    } else {
      OthersMove(s, a, p);
    }
    hide AllOk, Inv, Next, Enabled;
  }

  lemma {:induction false} WaitsLasts(s: State, run: seq<Action>, p: int, target: Target)
    requires AllOk(s) && IsRun(s, run) && Waits(s, p, target) && Settles(s, run, p)
    ensures Waits(After(s, run), p, target)
    decreases |run|
  {
    hide AllOk, Next, Enabled, Waits;
    if run != [] {
      AllStep(s, run[0]);
      WaitsStays(s, run[0], p, target);
      WaitsLasts(Next(s, run[0]), run[1..], p, target);
    }
  }

  /** A scan of a killed process comes to an end at user level. */
  lemma {:induction false} ToReturn(s: State, p: int) returns (more: seq<Action>)
    requires AllOk(s) && Running(s, p) && s.procs[p].pc.Scan? && s.procs[p].killed
    requires forall j {:trigger LockFree(s, j)} :: LockFree(s, j)
    ensures IsRun(s, more) && Slot(After(s, more), p) && After(s, more).procs[p].pc == User
    decreases |s.procs| - s.procs[p].pc.i
  {
    ScanKnows(s, p);
    var i := s.procs[p].pc.i;
    var a := WaitStep(p, false);
    assert LockFree(s, i);
    if i >= |s.procs| || (Sought(s, p, s.procs[p].pc.target, i) && s.procs[i].st == ZOMBIE) {
      Once(s, a);
      more := [a];
    } else {
      ScanPasses(s, p);
      AllStep(s, a);
      var s1 := Next(s, a);
      forall j ensures LockFree(s1, j) {
        assert LockFree(s, j);
      }
      var rest := ToReturn(s1, p);
      more := [a] + rest;
      assert more[1..] == rest;
    }
    hide AllOk;
  }

  /** With the locks free, a killed process in wait returns from it. */
  lemma KilledReturns(s: State, p: int, target: Target) returns (more: seq<Action>)
    requires AllOk(s) && Waits(s, p, target) && s.procs[p].killed && s.procs[p].st != SLEEPING
    requires s.waitLock == NOBODY || (s.waitLock == p && s.procs[p].pc.Scan?)
    requires forall j {:trigger LockFree(s, j)} :: LockFree(s, j)
    ensures IsRun(s, more) && Slot(After(s, more), p) && After(s, more).procs[p].pc == User
  {
    Facts(s, p);
    assert LockFree(s, p);
    if s.waitLock == p {
      more := ToReturn(s, p);
    } else {
      var go := Run(s, p);
      var s1 := After(s, go);
      var scan := BeginScan(s1, p, target);
      RunThen(s, go, scan);
      AllRun(s, go + scan);
      var s2 := After(s1, scan);
      forall j ensures LockFree(s2, j) {
        assert LockFree(s, j);
      }
      hide AllOk, Next, Enabled, ScanOk, ParentOk, ForkOk;
      var rest := ToReturn(s2, p);
      RunThen(s, go + scan, rest);
      more := go + scan + rest;
    }
  }

  lemma KillThen(s: State, p: int, target: Target) returns (rest: seq<Action>)
    requires AllOk(s) && Waits(s, p, target)
    requires s.waitLock == NOBODY || (s.waitLock == p && s.procs[p].pc.Scan?)
    requires forall j {:trigger LockFree(s, j)} :: LockFree(s, j)
    ensures IsRun(s, [Kill(p, true)] + rest)
    ensures var s' := After(s, [Kill(p, true)] + rest); Slot(s', p) && s'.procs[p].pc == User
  {
    assert LockFree(s, p);
    var a := Kill(p, true);
    Once(s, a);
    AllStep(s, a);
    var s1 := Next(s, a);
    forall j ensures LockFree(s1, j) {
      assert LockFree(s, j);
    }
    rest := KilledReturns(s1, p, target);
    RunThen(s, [a], rest);
    hide AllOk;
  }

  /** kill() gets a process out of wait, asleep or not: every run can go on to a state in
      which the process is killed, and from there to one in which its wait has returned. */
  lemma KillEndsWait(n: nat, run: seq<Action>, p: int, target: Target) returns (more: seq<Action>, rest: seq<Action>)
    requires n > 0 && IsRun(Boot(n), run) && Waits(After(Boot(n), run), p, target)
    ensures IsRun(Boot(n), run + (more + ([Kill(p, true)] + rest)))
    ensures var s := After(Boot(n), run + (more + ([Kill(p, true)] + rest))); Slot(s, p) && s.procs[p].pc == User
  {
    var s := Reached(n, run);
    more := FreeAll(s, p);
    WaitsLasts(s, more, p, target);
    var s1 := After(s, more);
    rest := KillThen(s1, p, target);
    RunThen(s, more, [Kill(p, true)] + rest);
    RunThen(Boot(n), run, more + ([Kill(p, true)] + rest));
    hide AllOk, Next, Enabled;
  }

  // ----- exit and fork -----

  /** p is at user level, runs, and finds every lock free. */
  ghost predicate Ready(s: State, p: int, pid: int) {
    && AllOk(s) && Running(s, p) && AtUser(s, p, pid) && s.waitLock == NOBODY
    && forall j {:trigger LockFree(s, j)} :: LockFree(s, j)
  }

  predicate IsFree(s: State, c: int) {
    Slot(s, c) && s.procs[c].st == UNUSED
  }

  lemma RunReady(s: State, p: int, pid: int, c: int) returns (go: seq<Action>)
    requires AllOk(s) && AtUser(s, p, pid) && s.waitLock == NOBODY
    requires forall j {:trigger LockFree(s, j)} :: LockFree(s, j)
    ensures IsRun(s, go) && Ready(After(s, go), p, pid) && (IsFree(s, c) ==> IsFree(After(s, go), c))
  {
    Facts(s, p);
    assert LockFree(s, p);
    go := Run(s, p);
    AllRun(s, go);
    var s1 := After(s, go);
    hide AllOk, Next, Enabled, LockOk, ScanOk, ParentOk, After, IsRun;
    forall j ensures LockFree(s1, j) {
      assert LockFree(s, j);
    }
  }

  /** p gets to run with every lock free, and slots that are free stay so. */
  lemma ToReady(s: State, p: int, pid: int, c: int) returns (more: seq<Action>)
    requires AllOk(s) && AtUser(s, p, pid)
    ensures IsRun(s, more) && Ready(After(s, more), p, pid) && (IsFree(s, c) ==> IsFree(After(s, more), c))
  {
    more := FreeAll(s, p);
    UserLasts(s, more, p, pid);
    if IsFree(s, c) {
      FreeLasts(s, more, p, c);
    }
    var s1 := After(s, more);
    Facts(s1, p);
    var go := RunReady(s1, p, pid, c);
    RunThen(s, more, go);
    more := more + go;
    hide AllOk, Next, Enabled, LockFree, LockOk, ScanOk, ParentOk, Ready;
  }

  lemma ExitFrom(s: State, p: int, pid: int, status: int) returns (more: seq<Action>)
    requires Ready(s, p, pid) && p != s.init
    ensures IsRun(s, more)
    ensures var s' := After(s, more);
            Slot(s', p) && s'.procs[p].st == ZOMBIE && s'.procs[p].xstate == status && s'.procs[p].pid == pid
  {
    var a := Exit(p, status);
    Once(s, a);
    AllStep(s, a);
    var s1 := Next(s, a);
    assert OthersFree(s1, p) by {
      forall j | j != p ensures LockFree(s1, j) {
        assert LockFree(s, j);
      }
    }
    hide AllOk;
    more := [a];
    var rest := FreeWait(s1, p, p);
    RunThen(s, more, rest);
    more := more + rest;
    Facts(After(s1, rest), p);
    hide Next, Enabled;
  }

  /** From every state that a run reaches a process that is not init can exit: there is a
      run in which it becomes a ZOMBIE with the status it gave. */
  lemma CanExit(n: nat, run: seq<Action>, p: int, status: int) returns (more: seq<Action>)
    requires n > 0 && IsRun(Boot(n), run) && Slot(After(Boot(n), run), p) && After(Boot(n), run).procs[p].pc == User
    requires p != After(Boot(n), run).init
    ensures IsRun(Boot(n), run + more)
    ensures var s := After(Boot(n), run + more);
            && Slot(s, p) && s.procs[p].st == ZOMBIE && s.procs[p].xstate == status
            && s.procs[p].pid == After(Boot(n), run).procs[p].pid
  {
    var s := Reached(n, run);
    var pid := s.procs[p].pid;
    more := ToReady(s, p, pid, p);
    var s1 := After(s, more);
    AllRun(s, more);
    var rest := ExitFrom(s1, p, pid, status);
    RunThen(s, more, rest);
    more := more + rest;
    RunThen(Boot(n), run, more);
    hide AllOk, Next, Enabled, Ready;
  }

  /** From every state that a run reaches a process at user level can fork into a free slot:
      the child is RUNNABLE with the caller as its parent. */
  lemma CanFork(n: nat, run: seq<Action>, p: int, c: int) returns (more: seq<Action>)
    requires n > 0 && IsRun(Boot(n), run) && Slot(After(Boot(n), run), p) && After(Boot(n), run).procs[p].pc == User
    requires IsFree(After(Boot(n), run), c)
    ensures IsRun(Boot(n), run + more)
    ensures var s := After(Boot(n), run + more);
            Slot(s, c) && s.procs[c].st == RUNNABLE && s.procs[c].pc == User && s.procs[c].parent == p
  {
    var s := Reached(n, run);
    more := ToReady(s, p, s.procs[p].pid, c);
    var s1 := After(s, more);
    assert Enabled(s1, Fork(p, c)) by {
      assert LockFree(s1, c);
    }
    var fork := ForkDone(s1, p, c);
    RunThen(s, more, fork);
    more := more + fork;
    RunThen(Boot(n), run, more);
    hide AllOk, Next, Enabled;
  }
}
