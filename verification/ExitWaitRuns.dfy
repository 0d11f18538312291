/** What exit, wait, join and fork achieve over whole runs of ExitWait: what a wait that
    returns has found, whose status it hands on, and that the locks never stop a process
    from getting there. */
module ExitWaitRuns {
  import opened ExitWait

  // ----- more of the invariant -----

  predicate InWait(pc: Pc) {
    pc.Scan? || pc.SleepLock? || pc.SleepRelease? || pc.SleepMark? || pc.Asleep? || pc.Reacquire?
  }

  /** Slot c is a child of p that a wait for `target` wants. */
  predicate Sought(s: State, p: int, target: Target, c: int) {
    Slot(s, c) && s.procs[c].parent == p && (target.Child? ==> s.procs[c].pid == target.pid)
  }

  ghost predicate HasSought(s: State, p: int, target: Target, below: int) {
    exists c {:trigger Sought(s, p, target, c)} :: c < below && Sought(s, p, target, c)
  }

  /** A process's lock is free, its own, or held by the one that is filling the slot in. */
  predicate LockOk(s: State, p: int)
    requires Slot(s, p)
  {
    var l := s.procs[p].lock;
    l == NOBODY || l == p || (Slot(s, l) && s.procs[l].pc == ForkFill(p))
  }

  /** A scan knows whether it has passed a child, and nobody goes to sleep without one. */
  ghost predicate ScanOk(s: State, p: int)
    requires Slot(s, p)
  {
    var pc := s.procs[p].pc;
    && (pc.Scan? ==> 0 <= pc.i && (pc.kids <==> HasSought(s, p, pc.target, pc.i)))
    && (InWait(pc) && !pc.Scan? ==> HasSought(s, p, pc.target, |s.procs|))
  }

  /** What else the record of a process says of itself. */
  predicate RecordOk(r: Proc) {
    && (r.pc.ForkFill? || r.pc.SleepMark? ==> r.st == RUNNING)
    && (r.st == ZOMBIE ==> r.xstate == r.status)
    && (r.pc.Reparent? ==> 0 <= r.pc.i) && (r.pc.WakeInit? ==> 0 <= r.pc.i && 0 <= r.pc.j)
    && (r.pc.WakeParent? ==> 0 <= r.pc.j)
  }

  /** The slot that fork fills in has no parent yet. */
  predicate FillOk(s: State, p: int)
    requires Slot(s, p)
  {
    var pc := s.procs[p].pc;
    pc.ForkFill? || pc.ForkFilled? ==> Slot(s, pc.c) && s.procs[pc.c].parent == NOBODY
  }

  ghost predicate MoreOk(s: State, p: int)
    requires Slot(s, p)
  {
    LockOk(s, p) && ScanOk(s, p) && FillOk(s, p) && RecordOk(s.procs[p])
  }

  ghost predicate AllOk(s: State) {
    Inv(s) && forall p {:trigger MoreOk(s, p)} :: Slot(s, p) ==> MoreOk(s, p)
  }

  lemma Facts(s: State, p: int)
    requires AllOk(s) && Slot(s, p)
    ensures PcOk(s, p) && ForkOk(s, p) && ParentOk(s, p) && MoreOk(s, p)
  {
  }

  predicate IsFork(a: Action) {
    a.Fork? || a.ForkFails? || a.ForkRelease? || a.ForkSetParent? || a.ForkUnlock? || a.ForkGo?
  }

  /** Slot c has the same parent, pid and place in the code. */
  predicate SameKin(s: State, s': State, c: int) {
    Slot(s, c) && Slot(s', c) && s'.procs[c].parent == s.procs[c].parent && s'.procs[c].pid == s.procs[c].pid
  }

  /** fork changes the parent and pid of a slot that is not yet a process alone. */
  lemma ForkTouches(s: State, a: Action, c: int)
    requires Enabled(s, a) && IsFork(a) && Slot(s, c)
    ensures SameKin(s, Next(s, a), c) || (a.Fork? && c == a.c) || Forking(s.procs[a.p].pc, c)
    ensures a.ForkSetParent? ==> SameKin(s, Next(s, a), c) || Next(s, a).procs[c].parent == a.p
    ensures !a.ForkSetParent? ==> SameKin(s, Next(s, a), c) || Next(s, a).procs[c].parent == NOBODY
    ensures a.ForkGo? || a.ForkUnlock? ==> SameKin(s, Next(s, a), c)
    ensures c != a.p && !(a.Fork? && c == a.c) && !Forking(s.procs[a.p].pc, c) ==> Next(s, a).procs[c] == s.procs[c]
  {
    hide WaitNext, ExitNext, WaitEnabled, ExitEnabled;
  }

  lemma ForkLeaves(s: State, a: Action, p: int, c: int)
    requires AllOk(s) && Enabled(s, a) && IsFork(a) && Slot(s, p) && InWait(s.procs[p].pc) && Slot(s, c)
    ensures s.procs[c].parent == p || Next(s, a).procs[c].parent == p ==> SameKin(s, Next(s, a), c)
    ensures Next(s, a).procs[p] == s.procs[p]
  {
    Facts(s, p);
    Facts(s, a.p);
    Facts(s, c);
    ForkTouches(s, a, c);
    ForkTouches(s, a, p);
    hide AllOk, Inv, ParentOk, ScanOk, LockOk, Next;
  }

  /** exit changes no pid, and hands on only its own children. */
  lemma ExitTouches(s: State, q: int, c: int)
    requires Slot(s, q) && ExitEnabled(s, q) && Slot(s, c)
    ensures SameKin(s, ExitNext(s, q), c)
         || (s.procs[q].pc.Reparent? && s.procs[c].parent == q && ExitNext(s, q).procs[c].pid == s.procs[c].pid)
    ensures c != q ==> ExitNext(s, q).procs[c].pc == s.procs[c].pc
  {
  }

  lemma ExitLeaves(s: State, q: int, p: int, c: int)
    requires AllOk(s) && Enabled(s, ExitStep(q)) && Slot(s, p) && InWait(s.procs[p].pc) && Slot(s, c)
    ensures var s' := Next(s, ExitStep(q));
            && s'.procs[p].pc == s.procs[p].pc && (s.procs[c].parent == p || s.waitLock == p ==> SameKin(s, s', c))
  {
    Facts(s, p);
    Facts(s, q);
    ExitTouches(s, q, c);
    ExitTouches(s, q, p);
    hide AllOk, Inv, ParentOk, ScanOk, LockOk, ForkOk, ExitNext;
  }

  /** wait frees a ZOMBIE that is a child of the caller, and then is over. */
  lemma WaitTouches(s: State, q: int, copyFails: bool, c: int)
    requires Slot(s, q) && WaitEnabled(s, q) && Slot(s, c)
    ensures SameKin(s, WaitNext(s, q, copyFails), c)
         || (WaitNext(s, q, copyFails).procs[c].st == UNUSED && WaitNext(s, q, copyFails).procs[c].parent == NOBODY
             && s.procs[q].pc.Scan? && c == s.procs[q].pc.i && s.procs[c].parent == q
             && WaitNext(s, q, copyFails).procs[q].pc == User && s.procs[c].st == ZOMBIE
             && (c != q ==> WaitNext(s, q, copyFails).procs[c].pc == Unborn))
    ensures c != q && SameKin(s, WaitNext(s, q, copyFails), c) ==>
              WaitNext(s, q, copyFails).procs[c].pc == s.procs[c].pc
  {
  }

  /** While p is in wait nobody takes a child that it looks for from it, and while it has
      wait_lock nobody gives it one. */
  lemma KinStays(s: State, a: Action, p: int, c: int)
    requires AllOk(s) && Enabled(s, a) && Slot(s, p) && InWait(s.procs[p].pc) && InWait(Next(s, a).procs[p].pc)
    requires Slot(s, c)
    ensures s.procs[c].parent == p ==> SameKin(s, Next(s, a), c)
    ensures s.waitLock == p && Next(s, a).procs[c].parent == p ==> SameKin(s, Next(s, a), c)
  {
    if IsFork(a) {
      ForkLeaves(s, a, p, c);
    } else if a.ExitStep? {
      ExitLeaves(s, a.p, p, c);
    } else if a.WaitStep? {
      WaitTouches(s, a.p, a.copyFails, c);
    }
    hide AllOk, ExitNext, WaitNext, ExitEnabled, WaitEnabled;
  }

  lemma SameSize(s: State, a: Action)
    requires Enabled(s, a)
    ensures |Next(s, a).procs| == |s.procs| && Next(s, a).init == s.init
  {
  }

  lemma SoughtBelow(s: State, a: Action, p: int, target: Target, below: int)
    requires AllOk(s) && Enabled(s, a) && Slot(s, p) && InWait(s.procs[p].pc) && InWait(Next(s, a).procs[p].pc)
    ensures HasSought(s, p, target, below) ==> HasSought(Next(s, a), p, target, below)
    ensures s.waitLock == p && HasSought(Next(s, a), p, target, below) ==> HasSought(s, p, target, below)
    ensures |Next(s, a).procs| == |s.procs|
  {
    var s' := Next(s, a);
    SameSize(s, a);
    forall c
      ensures Sought(s, p, target, c) ==> Sought(s', p, target, c)
      ensures s.waitLock == p && Sought(s', p, target, c) ==> Sought(s, p, target, c)
    {
      if Slot(s, c) {
        KinStays(s, a, p, c);
      }
      hide AllOk, Next, Enabled;
    }
    hide AllOk, Next, Enabled, Sought;
  }

  lemma SoughtNext(s: State, p: int, target: Target, i: int)
    ensures HasSought(s, p, target, i + 1) <==> HasSought(s, p, target, i) || Sought(s, p, target, i)
  {
  }

  /** p's own step in wait. */
  lemma ScanMoves(s: State, p: int, copyFails: bool)
    requires AllOk(s) && Enabled(s, WaitStep(p, copyFails))
    ensures ScanOk(Next(s, WaitStep(p, copyFails)), p)
  {
    Facts(s, p);
    var s' := Next(s, WaitStep(p, copyFails));
    var pc := s.procs[p].pc;
    if InWait(s'.procs[p].pc) {
      SoughtBelow(s, WaitStep(p, copyFails), p, pc.target, if pc.Scan? then pc.i else |s.procs|);
      hide AllOk, Inv, ParentOk, LockOk, ForkOk, FillOk, RecordOk;
      if pc.Scan? && pc.i < |s.procs| {
        SoughtNext(s', p, pc.target, pc.i);
        assert Sought(s, p, pc.target, pc.i) <==> Sought(s', p, pc.target, pc.i);
      }
      hide HasSought;
    }
  }

  lemma ForkMoves(s: State, a: Action, p: int)
    requires AllOk(s) && Enabled(s, a) && Slot(s, p) && a.p != p && IsFork(a)
    ensures Live(s, p) ==> Next(s, a).procs[p].pc == s.procs[p].pc
    ensures InWait(Next(s, a).procs[p].pc) ==> Live(s, p)
  {
    Facts(s, p);
    Facts(s, a.p);
    ForkTouches(s, a, p);
    hide AllOk, Inv, WaitEnabled, ExitEnabled, LockOk, ScanOk, ParentOk, WaitNext, ExitNext, FillOk, RecordOk;
  }

  /** Nobody but p itself moves p through the code, once it is a process. */
  lemma OthersMove(s: State, a: Action, p: int)
    requires AllOk(s) && Enabled(s, a) && Slot(s, p) && a.p != p
    ensures Live(s, p) ==> Next(s, a).procs[p].pc == s.procs[p].pc
    ensures InWait(Next(s, a).procs[p].pc) ==> Live(s, p)
  {
    Facts(s, p);
    hide AllOk, Inv, WaitEnabled, ExitEnabled, LockOk, ScanOk, ParentOk, WaitNext, ExitNext;
    if IsFork(a) {
      ForkMoves(s, a, p);
    } else if a.ExitStep? {
      ExitTouches(s, a.p, p);
    } else if a.WaitStep? {
      WaitTouches(s, a.p, a.copyFails, p);
    }
  }

  /** What p does by itself takes it into wait only by calling wait or join. */
  lemma OwnMove(s: State, a: Action, p: int)
    requires Enabled(s, a) && a.p == p && !a.WaitStep? && !a.Wait?
    ensures InWait(Next(s, a).procs[p].pc) ==> Next(s, a).procs[p].pc == s.procs[p].pc
  {
    if IsFork(a) || a.ExitStep? {
    }
  }

  lemma ScanStays(s: State, a: Action, p: int)
    requires AllOk(s) && Enabled(s, a) && Slot(s, p)
    ensures ScanOk(Next(s, a), p)
  {
    if a.WaitStep? && a.p == p {
      ScanMoves(s, p, a.copyFails);
    } else {
      Facts(s, p);
      var s' := Next(s, a);
      var pc := s.procs[p].pc;
      if a.p == p {
        if a.Wait? {
          return;
        }
        OwnMove(s, a, p);
      } else {
        OthersMove(s, a, p);
      }
      if InWait(s'.procs[p].pc) && InWait(pc) {
        SoughtBelow(s, a, p, pc.target, if pc.Scan? then pc.i else |s.procs|);
      }
      hide AllOk, Inv, ParentOk, LockOk, ForkOk, Sought, HasSought, Next, Enabled;
    }
  }

  /** What a step of another process can do to the record of slot p. */
  predicate ByOthers(s: State, r: Proc, r': Proc) {
    || r' == r || r' == r.(parent := s.init) || (r.st == SLEEPING && r' == r.(st := RUNNABLE))
    || (r.st == ZOMBIE && r' == Proc(UNUSED, Unborn, NOBODY, NOBODY, 0, false, r.lock, 0, 0))
  }

  lemma ExitRecord(s: State, q: int, p: int)
    requires Slot(s, q) && ExitEnabled(s, q) && Slot(s, p)
    ensures p != q ==> ByOthers(s, s.procs[p], ExitNext(s, q).procs[p])
    ensures p == q && RecordOk(s.procs[q]) ==> RecordOk(ExitNext(s, q).procs[q])
    ensures p == q && s.procs[p].st != ZOMBIE ==>
              ExitNext(s, q).procs[p].lock == s.procs[p].lock || ExitNext(s, q).procs[p].lock == p
  {
  }

  lemma WaitRecord(s: State, q: int, copyFails: bool, p: int)
    requires Slot(s, q) && WaitEnabled(s, q) && Slot(s, p)
    ensures p != q ==> ByOthers(s, s.procs[p], WaitNext(s, q, copyFails).procs[p])
    ensures p == q && s.procs[q].st == RUNNING ==>
              RecordOk(WaitNext(s, q, copyFails).procs[q])
              && (WaitNext(s, q, copyFails).procs[p].lock == s.procs[p].lock
                  || WaitNext(s, q, copyFails).procs[p].lock == p)
  {
  }

  lemma ForkRecord(s: State, a: Action, p: int)
    requires AllOk(s) && Enabled(s, a) && Slot(s, p) && IsFork(a)
    ensures RecordOk(Next(s, a).procs[p])
  {
    Facts(s, p);
    Facts(s, a.p);
    hide AllOk, Inv, ScanOk, ParentOk, LockOk, FillOk, WaitNext, ExitNext, WaitEnabled, ExitEnabled;
  }

  lemma RecordStays(s: State, a: Action, p: int)
    requires AllOk(s) && Enabled(s, a) && Slot(s, p)
    ensures RecordOk(Next(s, a).procs[p])
  {
    Facts(s, p);
    if IsFork(a) {
      ForkRecord(s, a, p);
    } else if a.ExitStep? {
      ExitRecord(s, a.p, p);
    } else if a.WaitStep? {
      WaitRecord(s, a.p, a.copyFails, p);
    }
    hide AllOk, Inv, ScanOk, ParentOk, LockOk, ExitNext, WaitNext, ExitEnabled, WaitEnabled, ForkOk;
  }

  lemma ForkLock(s: State, a: Action, p: int)
    requires AllOk(s) && Enabled(s, a) && Slot(s, p) && IsFork(a)
    ensures var l, s' := Next(s, a).procs[p].lock, Next(s, a);
            l == NOBODY || l == p || (l == a.p && s'.procs[l].pc == ForkFill(p)) || (l != a.p && l == s.procs[p].lock)
  {
    Facts(s, p);
    Facts(s, a.p);
    hide AllOk, Inv, ScanOk, ParentOk;
  }

  lemma OtherLock(s: State, a: Action, p: int)
    requires AllOk(s) && Enabled(s, a) && Slot(s, p) && !IsFork(a)
    ensures var l := Next(s, a).procs[p].lock; l == NOBODY || l == p || l == s.procs[p].lock
    ensures a.p == p && s.procs[p].pc.ForkFill? ==> Next(s, a).procs[p].pc == s.procs[p].pc
  {
    if a.ExitStep? {
      Facts(s, a.p);
      ExitRecord(s, a.p, p);
    } else if a.WaitStep? {
      WaitRecord(s, a.p, a.copyFails, p);
    }
    hide AllOk, Inv, ScanOk, ParentOk, ForkOk, ExitNext, WaitNext;
  }

  lemma LockStays(s: State, a: Action, p: int)
    requires AllOk(s) && Enabled(s, a) && Slot(s, p)
    ensures LockOk(Next(s, a), p)
  {
    Facts(s, p);
    var l := s.procs[p].lock;
    if Slot(s, l) && s.procs[l].pc == ForkFill(p) {
      Facts(s, l);
      if a.p != l {
        OthersMove(s, a, l);
      } else if !IsFork(a) {
        OtherLock(s, a, l);
      }
    }
    SameSize(s, a);
    if IsFork(a) {
      ForkLock(s, a, p);
    } else {
      OtherLock(s, a, p);
    }
    hide AllOk, Inv, ScanOk, ParentOk, ForkOk, Next, Enabled;
  }

  lemma FillOwn(s: State, a: Action, p: int)
    requires Slot(s, p) && Enabled(s, a) && a.p == p && FillOk(s, p) && |Next(s, a).procs| == |s.procs|
    ensures FillOk(Next(s, a), p)
  {
    if !IsFork(a) {
      if a.ExitStep? {
      } else if a.WaitStep? {
      }
      hide WaitNext, ExitNext;
    }
  }

  lemma FillFork(s: State, a: Action, p: int)
    requires AllOk(s) && Enabled(s, a) && Slot(s, p) && a.p != p && Live(s, p) && IsFork(a)
    requires s.procs[p].pc.ForkFill? || s.procs[p].pc.ForkFilled?
    ensures SameKin(s, Next(s, a), s.procs[p].pc.c)
  {
    var c := s.procs[p].pc.c;
    Facts(s, p);
    Facts(s, c);
    Facts(s, a.p);
    ForkTouches(s, a, c);
    hide AllOk, Inv, ScanOk, ParentOk, LockOk, Next;
  }

  lemma FillOther(s: State, a: Action, p: int)
    requires AllOk(s) && Enabled(s, a) && Slot(s, p) && a.p != p && Live(s, p)
    requires s.procs[p].pc.ForkFill? || s.procs[p].pc.ForkFilled?
    ensures Slot(Next(s, a), s.procs[p].pc.c) && Next(s, a).procs[s.procs[p].pc.c].parent == NOBODY
  {
    var c := s.procs[p].pc.c;
    Facts(s, p);
    Facts(s, c);
    SameSize(s, a);
    if IsFork(a) {
      FillFork(s, a, p);
    } else if a.ExitStep? {
      ExitTouches(s, a.p, c);
    } else if a.WaitStep? {
      WaitTouches(s, a.p, a.copyFails, c);
    }
    hide AllOk, Inv, ScanOk, ParentOk, LockOk, WaitNext, ExitNext;
  }

  lemma OthersForking(s: State, a: Action, p: int)
    requires AllOk(s) && Enabled(s, a) && Slot(s, p) && a.p != p && !Live(s, p)
    ensures !Next(s, a).procs[p].pc.ForkFill? && !Next(s, a).procs[p].pc.ForkFilled?
  {
    Facts(s, p);
    if a.ExitStep? {
      ExitTouches(s, a.p, p);
    } else if a.WaitStep? {
      WaitTouches(s, a.p, a.copyFails, p);
    }
    hide AllOk, Inv, ScanOk, ParentOk, LockOk, WaitNext, ExitNext;
  }

  lemma FillStays(s: State, a: Action, p: int)
    requires AllOk(s) && Enabled(s, a) && Slot(s, p)
    ensures FillOk(Next(s, a), p)
  {
    Facts(s, p);
    SameSize(s, a);
    if a.p == p {
      FillOwn(s, a, p);
    } else if Live(s, p) {
      OthersMove(s, a, p);
      if s.procs[p].pc.ForkFill? || s.procs[p].pc.ForkFilled? {
        FillOther(s, a, p);
      }
    } else {
      OthersForking(s, a, p);
    }
    hide AllOk, Inv, ScanOk, ParentOk, LockOk, Next, Enabled;
  }

  /** Every step keeps the whole invariant. */
  lemma AllStep(s: State, a: Action)
    requires AllOk(s) && Enabled(s, a)
    ensures AllOk(Next(s, a))
  {
    var s' := Next(s, a);
    InvStep(s, a);
    SameSize(s, a);
    forall p | Slot(s', p) ensures MoreOk(s', p) {
      LockStays(s, a, p);
      ScanStays(s, a, p);
      RecordStays(s, a, p);
      FillStays(s, a, p);
      hide AllOk, Inv, ScanOk, LockOk, Next, Enabled;
    }
    hide Inv, Next, Enabled, MoreOk;
  }

  lemma {:induction false} AllRun(s: State, run: seq<Action>)
    requires AllOk(s) && IsRun(s, run)
    ensures AllOk(After(s, run)) && |After(s, run).procs| == |s.procs| && After(s, run).init == s.init
    decreases |run|
  {
    hide AllOk, Next, Enabled;
    if run != [] {
      AllStep(s, run[0]);
      SameSize(s, run[0]);
      AllRun(Next(s, run[0]), run[1..]);
    }
  }

  lemma BootOk(n: nat)
    requires n > 0
    ensures AllOk(Boot(n))
  {
    BootInv(n);
    var s := Boot(n);
    forall p | Slot(s, p) ensures MoreOk(s, p) {
    }
    hide Inv, MoreOk;
  }

  lemma Reached(n: nat, run: seq<Action>) returns (s: State)
    requires n > 0 && IsRun(Boot(n), run)
    ensures s == After(Boot(n), run) && AllOk(s) && |s.procs| == n && s.init == 0
  {
    BootOk(n);
    AllRun(Boot(n), run);
    s := After(Boot(n), run);
  }

  // ----- what a wait that returns has found -----

  /** p's place in the code is all that the end of the wait changes, but for wait_lock. */
  predicate JustLeaves(s: State, s': State, p: int)
    requires Slot(s, p)
  {
    s' == State(s.procs[p := s.procs[p].(pc := User)], NOBODY, s.nextpid, s.init, s.reaped)
  }

  /** Slot c is free again and its pid and exit status have been handed on to p. */
  predicate Collects(s: State, s': State, p: int, c: int)
    requires Slot(s, p) && Slot(s, c)
  {
    s' == State(s.procs[c := Proc(UNUSED, Unborn, NOBODY, NOBODY, 0, false, s.procs[c].lock, 0, 0)]
                       [p := s.procs[p].(pc := User)],
                NOBODY, s.nextpid, s.init, s.reaped[s.procs[c].pid := s.procs[c].xstate])
  }

  /** Some ZOMBIE is a child of p that its wait for `target` wants. */
  ghost predicate HasZombie(s: State, p: int, target: Target) {
    exists c {:trigger Sought(s, p, target, c)} :: Sought(s, p, target, c) && s.procs[c].st == ZOMBIE
  }

  /** What p knows when its scan is at slot i. */
  lemma ScanKnows(s: State, p: int)
    requires AllOk(s) && Slot(s, p) && s.procs[p].pc.Scan?
    ensures var n, t, i, kids := |s.procs|, s.procs[p].pc.target, s.procs[p].pc.i, s.procs[p].pc.kids;
            && 0 <= i && (kids || Sought(s, p, t, i) <==> HasSought(s, p, t, i + 1))
            && (i >= n ==> !HasZombie(s, p, t) && (kids <==> HasSought(s, p, t, n)))
            && s.waitLock == p && (forall c :: Sought(s, p, t, c) ==> c != p)
  {
    Facts(s, p);
    var n, t, i := |s.procs|, s.procs[p].pc.target, s.procs[p].pc.i;
    assert HasSought(s, p, t, i + 1) <==> HasSought(s, p, t, i) || Sought(s, p, t, i);
    if i >= n {
      forall c | Sought(s, p, t, c) ensures s.procs[c].st != ZOMBIE {
        assert NotMissed(s, p, c);
      }
      assert HasSought(s, p, t, i) <==> HasSought(s, p, t, n);
    }
    forall c | Sought(s, p, t, c) ensures c != p {
      Facts(s, c);
    }
    hide AllOk, Inv;
  }

  /** One turn of the loop of kwait() or kjoin(), in any state that a run reaches: the first
      ZOMBIE child that is wanted is collected, and the call gives up only when there is no
      child to wait for or the caller has been killed; or else it goes to sleep. */
  lemma WaitTurn(n: nat, run: seq<Action>, p: int, copyFails: bool)
    requires n > 0 && IsRun(Boot(n), run) && Enabled(After(Boot(n), run), WaitStep(p, copyFails))
    requires After(Boot(n), run).procs[p].pc.Scan?
    ensures var s := After(Boot(n), run);
            var s', t, i := Next(s, WaitStep(p, copyFails)), s.procs[p].pc.target, s.procs[p].pc.i;
            if i < n then
              if Sought(s, p, t, i) && s.procs[i].st == ZOMBIE then
                if copyFails then JustLeaves(s, s', p) else Collects(s, s', p, i)
              else s'.procs[p].pc == Scan(t, i + 1, HasSought(s, p, t, i + 1)) && s' == At(s, p, s'.procs[p].pc)
            else
              && !HasZombie(s, p, t)
              && if s.procs[p].killed || !HasSought(s, p, t, n) then JustLeaves(s, s', p)
                 else s' == At(s, p, SleepLock(t))
  {
    var s := Reached(n, run);
    ScanKnows(s, p);
    hide AllOk, Inv, ExitNext, ExitEnabled, HasSought, HasZombie;
  }

  /** Whoever sleeps in wait or join has a child to wait for. */
  lemma SleepsForChild(n: nat, run: seq<Action>, p: int, target: Target)
    requires n > 0 && IsRun(Boot(n), run) && AsleepIn(After(Boot(n), run), p, target)
    ensures HasSought(After(Boot(n), run), p, target, n)
  {
    var s := Reached(n, run);
    Facts(s, p);
  }

  // ----- the exit status -----

  /** The process in slot c is exiting, with the same pid and status. */
  predicate SameExit(s: State, s': State, c: int) {
    && Slot(s, c) && Slot(s', c) && Exiting(s'.procs[c].pc)
    && s'.procs[c].pid == s.procs[c].pid && s'.procs[c].status == s.procs[c].status
  }

  /** A step of p's own in kexit(). */
  lemma OwnExit(s: State, c: int)
    requires Slot(s, c) && ExitEnabled(s, c) && Exiting(s.procs[c].pc)
    requires s.procs[c].st == ZOMBIE ==> s.procs[c].pc.ExitZombie?
    ensures SameExit(s, ExitNext(s, c), c)
    ensures s.procs[c].st == ZOMBIE ==> ExitNext(s, c).procs[c].st == ZOMBIE
  {
  }

  lemma WaitCollects(s: State, q: int, copyFails: bool, c: int)
    requires Slot(s, q) && Slot(s, c) && q != c && WaitEnabled(s, q) && Exiting(s.procs[c].pc)
    ensures var s' := WaitNext(s, q, copyFails);
            || s'.procs[c] == s.procs[c]
            || (s.procs[q].pc.Scan? && c == s.procs[q].pc.i && Sought(s, q, s.procs[q].pc.target, c) && !copyFails
                && s.procs[c].st == ZOMBIE && Collects(s, s', q, c))
  {
  }

  lemma OthersExit(s: State, a: Action, c: int)
    requires AllOk(s) && Enabled(s, a) && Slot(s, c) && Exiting(s.procs[c].pc) && !a.ExitStep? && !a.WaitStep?
    ensures SameExit(s, Next(s, a), c) && (s.procs[c].st == ZOMBIE ==> Next(s, a).procs[c].st == ZOMBIE)
  {
    Facts(s, c);
    SameSize(s, a);
    hide AllOk, Inv, ExitNext, WaitNext, ScanOk, LockOk, ParentOk;
    if IsFork(a) {
      Facts(s, a.p);
      ForkTouches(s, a, c);
    }
  }

  /** Whoever calls exit never comes back: the process goes on exiting with its pid and
      status, once a ZOMBIE it stays one, and it goes only when its parent's wait collects
      it. */
  lemma ExitStays(s: State, a: Action, c: int)
    requires AllOk(s) && Enabled(s, a) && Slot(s, c) && Exiting(s.procs[c].pc)
    ensures var s', q := Next(s, a), s.procs[c].parent;
            || (SameExit(s, s', c) && (s.procs[c].st == ZOMBIE ==> s'.procs[c].st == ZOMBIE))
            || (a == WaitStep(q, false) && Reaps(s, a, s.procs[c].pid) && Collects(s, s', q, c)
                && s'.reaped == s.reaped[s.procs[c].pid := s.procs[c].status])
  {
    Facts(s, c);
    SameSize(s, a);
    assert a.ExitStep? ==> Next(s, a) == ExitNext(s, a.p);
    assert a.WaitStep? ==> Next(s, a) == WaitNext(s, a.p, a.copyFails);
    hide AllOk, Inv, Next, ExitNext, WaitNext, ScanOk, LockOk, ForkOk;
    if a.ExitStep? {
      ExitRecord(s, a.p, c);
      if a.p == c {
        OwnExit(s, c);
      }
    } else if a.WaitStep? {
      WaitCollects(s, a.p, a.copyFails, c);
    } else {
      OthersExit(s, a, c);
    }
  }

  /** In the run a process with this pid calls exit with this status. */
  ghost predicate Exited(s: State, run: seq<Action>, pid: int, status: int)
    requires IsRun(s, run)
    decreases |run|
  {
    run != []
    && ((run[0].Exit? && s.procs[run[0].p].pid == pid && run[0].status == status)
        || Exited(Next(s, run[0]), run[1..], pid, status))
  }

  /** The process with this pid is on its way out, or its status has been handed on. */
  ghost predicate Going(s: State, pid: int, status: int) {
    || (pid in s.reaped && s.reaped[pid] == status)
    || exists c {:trigger Slot(s, c)} :: Slot(s, c) && Exiting(s.procs[c].pc) && s.procs[c].pid == pid
         && s.procs[c].status == status
  }

  lemma GoingStays(s: State, a: Action, pid: int, status: int)
    requires AllOk(s) && Enabled(s, a) && Going(s, pid, status)
    ensures Going(Next(s, a), pid, status)
  {
    InvStep(s, a);
    SameSize(s, a);
    if pid !in s.reaped || s.reaped[pid] != status {
      var c :| Slot(s, c) && Exiting(s.procs[c].pc) && s.procs[c].pid == pid && s.procs[c].status == status;
      ExitStays(s, a, c);
    }
    hide AllOk, Inv, Next, Enabled;
  }

  lemma ExitReaps(s: State, q: int)
    requires Slot(s, q) && ExitEnabled(s, q)
    ensures ExitNext(s, q).reaped == s.reaped
  {
  }

  lemma ReapedCame(s: State, a: Action, pid: int)
    requires AllOk(s) && Enabled(s, a) && pid in Next(s, a).reaped
    ensures Going(s, pid, Next(s, a).reaped[pid])
  {
    if a.WaitStep? && s.procs[a.p].pc.Scan? && Slot(s, s.procs[a.p].pc.i) {
      Facts(s, s.procs[a.p].pc.i);
    }
    if a.ExitStep? {
      ExitReaps(s, a.p);
    }
    hide AllOk, Inv, ScanOk, LockOk, ForkOk, ParentOk, ExitNext, ExitEnabled;
  }

  lemma WaitExits(s: State, q: int, copyFails: bool, c: int)
    requires Slot(s, q) && WaitEnabled(s, q) && Slot(s, c) && Exiting(WaitNext(s, q, copyFails).procs[c].pc)
    ensures Exiting(s.procs[c].pc)
  {
  }

  lemma ForkExits(s: State, a: Action, c: int)
    requires Enabled(s, a) && IsFork(a) && Slot(s, c) && Exiting(Next(s, a).procs[c].pc)
    ensures Exiting(s.procs[c].pc)
  {
    hide ExitNext, WaitNext;
  }

  lemma ExitingCame(s: State, a: Action, c: int)
    requires AllOk(s) && Enabled(s, a) && Slot(s, c) && Exiting(Next(s, a).procs[c].pc)
    ensures Exiting(s.procs[c].pc)
         || (a.Exit? && a.p == c && s.procs[c].pid == Next(s, a).procs[c].pid && a.status == Next(s, a).procs[c].status)
  {
    Facts(s, c);
    assert a.ExitStep? ==> Next(s, a) == ExitNext(s, a.p);
    assert a.WaitStep? ==> Next(s, a) == WaitNext(s, a.p, a.copyFails);
    hide AllOk, Inv, ScanOk, LockOk, ForkOk, ParentOk, ExitNext, WaitNext;
    if a.ExitStep? {
      ExitTouches(s, a.p, c);
    } else if a.WaitStep? {
      WaitExits(s, a.p, a.copyFails, c);
    } else if IsFork(a) {
      ForkExits(s, a, c);
    }
  }

  /** Who is on the way out has called exit just now or was so before. */
  lemma GoingCame(s: State, a: Action, pid: int, status: int)
    requires AllOk(s) && Enabled(s, a) && Going(Next(s, a), pid, status)
    ensures Going(s, pid, status) || (a.Exit? && s.procs[a.p].pid == pid && a.status == status)
  {
    var s' := Next(s, a);
    if pid in s'.reaped && s'.reaped[pid] == status {
      ReapedCame(s, a, pid);
    } else {
      var c :| Slot(s', c) && Exiting(s'.procs[c].pc) && s'.procs[c].pid == pid && s'.procs[c].status == status;
      SameSize(s, a);
      ExitingCame(s, a, c);
      if Exiting(s.procs[c].pc) {
        ExitStays(s, a, c);
      }
    }
    hide AllOk, Inv, Next, Enabled;
  }

  lemma ExitBegins(s: State, a: Action)
    requires Enabled(s, a) && a.Exit?
    ensures Slot(s, a.p) && Going(Next(s, a), s.procs[a.p].pid, a.status)
  {
    assert Slot(Next(s, a), a.p);
  }

  lemma {:induction false} GoingRun(s: State, run: seq<Action>, pid: int, status: int)
    requires AllOk(s) && IsRun(s, run)
    ensures Going(After(s, run), pid, status) <==> Going(s, pid, status) || Exited(s, run, pid, status)
    decreases |run|
  {
    if run != [] && run[0].Exit? {
      ExitBegins(s, run[0]);
    }
    hide AllOk, Next, Enabled, Going;
    if run != [] {
      var s1 := Next(s, run[0]);
      AllStep(s, run[0]);
      GoingRun(s1, run[1..], pid, status);
      if Going(s, pid, status) {
        GoingStays(s, run[0], pid, status);
      }
      if Going(s1, pid, status) {
        GoingCame(s, run[0], pid, status);
      }
    }
  }

  /** The status that wait or join hands on is the one its process gave to exit: in every
      run, a pid that has been collected called exit with that status; and whoever called
      exit with a status is still on the way out or was collected with it. */
  lemma StatusHandedOn(n: nat, run: seq<Action>, pid: int)
    requires n > 0 && IsRun(Boot(n), run)
    ensures pid in After(Boot(n), run).reaped ==> Exited(Boot(n), run, pid, After(Boot(n), run).reaped[pid])
    ensures forall status {:trigger Exited(Boot(n), run, pid, status)} :: Exited(Boot(n), run, pid, status) ==>
              Going(After(Boot(n), run), pid, status)
  {
    var s := Reached(n, run);
    BootOk(n);
    if pid in s.reaped {
      GoingRun(Boot(n), run, pid, s.reaped[pid]);
    }
    forall status | Exited(Boot(n), run, pid, status) ensures Going(s, pid, status) {
      GoingRun(Boot(n), run, pid, status);
    }
    hide AllOk;
  }

  // ----- fork -----

  lemma Once(s: State, a: Action)
    requires Enabled(s, a)
    ensures IsRun(s, [a]) && After(s, [a]) == Next(s, a)
  {
    assert [a][1..] == [] && IsRun(Next(s, a), []) && After(Next(s, a), []) == Next(s, a);
    hide Enabled, Next;
  }

  lemma {:induction false} RunThen(s: State, run: seq<Action>, more: seq<Action>)
    requires IsRun(s, run) && IsRun(After(s, run), more)
    ensures IsRun(s, run + more) && After(s, run + more) == After(After(s, run), more)
    decreases |run|
  {
    if run == [] {
      assert run + more == more;
    } else {
      assert (run + more)[1..] == run[1..] + more;
      RunThen(Next(s, run[0]), run[1..], more);
    }
    hide Next, Enabled;
  }

  /** Filling in the new slot. */
  lemma ForkFirst(s: State, p: int, c: int)
    requires Enabled(s, Fork(p, c)) && s.waitLock == NOBODY
    ensures IsRun(s, [Fork(p, c), ForkRelease(p)])
    ensures After(s, [Fork(p, c), ForkRelease(p)]) == State(
              s.procs[c := NewProc(s, c, p).(lock := NOBODY)][p := s.procs[p].(pc := ForkFilled(c))],
              NOBODY, s.nextpid + 1, s.init, s.reaped)
  {
    var s1 := Next(s, Fork(p, c));
    Once(s, Fork(p, c));
    Once(s1, ForkRelease(p));
    RunThen(s, [Fork(p, c)], [ForkRelease(p)]);
    assert [Fork(p, c)] + [ForkRelease(p)] == [Fork(p, c), ForkRelease(p)];
    assert Next(s1, ForkRelease(p)).procs
        == s.procs[c := NewProc(s, c, p).(lock := NOBODY)][p := s.procs[p].(pc := ForkFilled(c))];
    hide IsRun, After, WaitNext, ExitNext;
  }

  /** The child gets its parent under wait_lock. */
  lemma ForkNames(s: State, p: int, c: int)
    requires Running(s, p) && s.procs[p].pc == ForkFilled(c) && Slot(s, c) && c != p && s.waitLock == NOBODY
    ensures IsRun(s, [ForkSetParent(p), ForkUnlock(p)])
    ensures After(s, [ForkSetParent(p), ForkUnlock(p)]) == State(
              s.procs[c := s.procs[c].(parent := p)][p := s.procs[p].(pc := ForkReady(c))],
              NOBODY, s.nextpid, s.init, s.reaped)
  {
    var s1 := Next(s, ForkSetParent(p));
    Once(s, ForkSetParent(p));
    Once(s1, ForkUnlock(p));
    RunThen(s, [ForkSetParent(p)], [ForkUnlock(p)]);
    assert [ForkSetParent(p)] + [ForkUnlock(p)] == [ForkSetParent(p), ForkUnlock(p)];
    assert Next(s1, ForkUnlock(p)).procs
        == s.procs[c := s.procs[c].(parent := p)][p := s.procs[p].(pc := ForkReady(c))];
    hide IsRun, After, WaitNext, ExitNext;
  }

  /** fork() and clone() by p into the free slot c, with no other process in between: a new
      RUNNABLE child of p with the next pid, and nothing else. */
  lemma ForkDone(s: State, p: int, c: int) returns (fork: seq<Action>)
    requires Enabled(s, Fork(p, c)) && s.waitLock == NOBODY
    ensures IsRun(s, fork)
    ensures After(s, fork) == State(
              s.procs[c := Proc(RUNNABLE, User, NOBODY, p, s.nextpid, s.procs[c].killed, NOBODY, 0, 0)],
              NOBODY, s.nextpid + 1, s.init, s.reaped)
  {
    var fill, name, go := [Fork(p, c), ForkRelease(p)], [ForkSetParent(p), ForkUnlock(p)], [ForkGo(p)];
    ForkFirst(s, p, c);
    var s1 := After(s, fill);
    ForkNames(s1, p, c);
    var s2 := After(s1, name);
    Once(s2, ForkGo(p));
    assert Next(s2, ForkGo(p)).procs
        == s.procs[c := Proc(RUNNABLE, User, NOBODY, p, s.nextpid, s.procs[c].killed, NOBODY, 0, 0)];
    RunThen(s1, name, go);
    RunThen(s, fill, name + go);
    fork := fill + (name + go);
    hide IsRun, After, WaitNext, ExitNext;
  }

  /** A fork that fails leaves the slot free, and costs a pid. */
  lemma ForkUndone(s: State, p: int, c: int)
    requires Enabled(s, Fork(p, c))
    ensures Enabled(Next(s, Fork(p, c)), ForkFails(p))
    ensures Next(Next(s, Fork(p, c)), ForkFails(p)) == State(
              s.procs[c := Proc(UNUSED, Unborn, NOBODY, NOBODY, 0, false, NOBODY, 0, 0)],
              s.waitLock, s.nextpid + 1, s.init, s.reaped)
  {
    var s2 := Next(Next(s, Fork(p, c)), ForkFails(p));
    assert s2.procs == s.procs[c := Proc(UNUSED, Unborn, NOBODY, NOBODY, 0, false, NOBODY, 0, 0)];
  }

  lemma PidIsOwn(s: State, c: int)
    requires Inv(s) && Slot(s, c) && s.procs[c].st != UNUSED
    ensures s.procs[c].pid !in s.reaped
    ensures forall q {:trigger s.procs[q]} :: Slot(s, q) && q != c && s.procs[q].st != UNUSED ==>
              s.procs[q].pid != s.procs[c].pid
  {
    assert PidOk(s, c);
    forall q | Slot(s, q) && q != c && s.procs[q].st != UNUSED ensures s.procs[q].pid != s.procs[c].pid {
      assert PidsApart(s, q, c);
    }
  }

  /** Whatever the others do while p is in fork: the child that p lets go has p as its
      parent, and a pid that no other process has or had. */
  lemma ForkMakes(n: nat, run: seq<Action>, p: int)
    requires n > 0 && IsRun(Boot(n), run) && Enabled(After(Boot(n), run), ForkGo(p))
    ensures var s := After(Boot(n), run);
            var c, s' := s.procs[p].pc.c, Next(s, ForkGo(p));
            && s'.procs[c].st == RUNNABLE && s'.procs[c].pc == User && s'.procs[c].parent == p && s'.procs[p].pc == User
            && s'.procs[c].pid !in s'.reaped
            && forall q {:trigger s'.procs[q]} :: Slot(s', q) && q != c && s'.procs[q].st != UNUSED ==>
                 s'.procs[q].pid != s'.procs[c].pid
  {
    var s := Reached(n, run);
    var c := s.procs[p].pc.c;
    Facts(s, p);
    InvStep(s, ForkGo(p));
    PidIsOwn(Next(s, ForkGo(p)), c);
    hide AllOk, Inv, WaitNext, ExitNext;
  }
}
