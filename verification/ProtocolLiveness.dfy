/**
 * The spin never gets stuck: whatever has happened so far, some continuation (the workers go
 * on, and the firmware accepts what it is offered) lets `UefiSpin` return.
 */
module ProtocolLiveness {
  import opened Protocol
  import opened ProtocolSafety
  import opened ProtocolRuns

  // --------------------------------------------------------------------------
  // Flags are not lost
  // --------------------------------------------------------------------------

  // A worker that has ended has marked its thread as finished.
  ghost predicate EndedMarked(p: Plan, finished: seq<bool>, jobs: seq<Job>)
    requires WellFormed(p) && JobsShaped(p, jobs) && |finished| == |p.holder|
  {
    forall a :: 0 <= a < |jobs| && jobs[a].phase.Ended? ==> finished[p.contexts[jobs[a].context].slot]
  }

  // A thread marked as started, or being dispatched, has a run.
  ghost predicate StartedHasRun(p: Plan, started: seq<bool>, jobs: seq<Job>, boot: Boot)
    requires WellFormed(p) && |started| == |p.holder|
  {
    forall i :: 0 <= i < |p.holder| && p.holder[i].Some? && (started[i] || (boot.at == Dispatched && boot.i == i)) ==>
      !Unstarted(jobs, p.holder[i].value)
  }

  ghost predicate Live(p: Plan, s: State) {
    Inv(p, s) && EndedMarked(p, s.finished, s.jobs) && StartedHasRun(p, s.started, s.jobs, s.boot)
  }

  lemma LiveIsInv(p: Plan, s: State)
    requires Live(p, s)
    ensures Inv(p, s) && WellFormed(p) && Shaped(p, s)
  {}

  lemma StillStarted(jobs: seq<Job>, next: seq<Job>, c: nat)
    requires JobsGrow(jobs, next) && !Unstarted(jobs, c)
    ensures !Unstarted(next, c)
  {
    var a :| 0 <= a < |jobs| && jobs[a].context == c;
    assert next[a].context == c;
  }

  lemma StartedStaysRun(p: Plan, started: seq<bool>, jobs: seq<Job>, next: seq<Job>, boot: Boot)
    requires WellFormed(p) && |started| == |p.holder| && StartedHasRun(p, started, jobs, boot) && JobsGrow(jobs, next)
    ensures StartedHasRun(p, started, next, boot)
  {
    forall i | 0 <= i < |p.holder| && p.holder[i].Some? && (started[i] || (boot.at == Dispatched && boot.i == i))
      ensures !Unstarted(next, p.holder[i].value)
    {
      StillStarted(jobs, next, p.holder[i].value);
    }
  }

  lemma DispatchLive(p: Plan, s: State)
    requires Live(p, s) && s.boot.at == Offer
    ensures Live(p, BootStep(p, s, true))
  {
    hide Inv;
    LiveIsInv(p, s);
    var c := p.holder[s.boot.i].value;
    var next := s.jobs + [NewJob(p, c)];
    BootStepKeeps(p, s, true);
    StartedStaysRun(p, s.started, s.jobs, next, s.boot);
    assert next[|s.jobs|].context == c;
  }

  lemma BootLive(p: Plan, s: State, accepted: bool)
    requires Live(p, s)
    ensures Live(p, BootStep(p, s, accepted))
  {
    hide Inv, Unstarted;
    LiveIsInv(p, s);
    if s.boot.at == Offer && accepted {
      DispatchLive(p, s);
    } else {
      BootStepKeeps(p, s, accepted);
    }
  }

  lemma WorkerLive(p: Plan, s: State, a: nat)
    requires Live(p, s) && a < |s.jobs|
    ensures Live(p, WorkerStep(p, s, a))
  {
    hide Inv, WorkerStep, Unstarted;
    InvIsShaped(p, s);
    var t := WorkerStep(p, s, a);
    WorkerStepKeeps(p, s, a);
    WorkerStepMoves(p, s, a);
    InvIsShaped(p, t);
    StartedStaysRun(p, s.started, s.jobs, t.jobs, s.boot);
  }

  lemma NotifyLive(p: Plan, s: State, a: nat)
    requires Live(p, s) && a < |s.jobs|
    ensures Live(p, NotifyStep(p, s, a))
  {
    hide Inv, StartedHasRun;
    InvIsShaped(p, s);
    NotifyStepKeeps(p, s, a);
  }

  lemma ApplyLive(p: Plan, s: State, x: Action)
    requires Live(p, s)
    ensures WellFormed(p) && Shaped(p, s) && Live(p, Apply(p, s, x))
  {
    LiveIsInv(p, s);
    hide Live, BootStep, WorkerStep, NotifyStep, WellFormed, Shaped;
    match x
    case BootMoves(accepted) => BootLive(p, s, accepted);
    case WorkerMoves(a) => if a < |s.jobs| { WorkerLive(p, s, a); }
    case EventFires(a) => if a < |s.jobs| { NotifyLive(p, s, a); }
  }

  lemma {:induction false} RunLive(p: Plan, s: State, actions: seq<Action>)
    requires Live(p, s)
    ensures Live(p, Run(p, s, actions))
    decreases |actions|
  {
    if actions != [] {
      ApplyLive(p, s, actions[0]);
      hide Inv, EndedMarked, StartedHasRun, Apply;
      InvIsShaped(p, s);
      RunLive(p, Apply(p, s, actions[0]), actions[1..]);
    }
  }

  lemma RunOne(p: Plan, s: State, x: Action, more: seq<Action>)
    requires Inv(p, s)
    ensures WellFormed(p) && Shaped(p, s) && Inv(p, Apply(p, s, x))
    ensures Run(p, s, [x] + more) == Run(p, Apply(p, s, x), more)
  {
    InvIsShaped(p, s);
    ApplyKeeps(p, s, x);
    hide Inv, Apply;
    assert ([x] + more)[1..] == more;
  }

  // --------------------------------------------------------------------------
  // Workers end
  // --------------------------------------------------------------------------

  ghost predicate AllEnded(jobs: seq<Job>) {
    forall a :: 0 <= a < |jobs| ==> jobs[a].phase.Ended?
  }

  // How many steps a worker has left, at most.
  function StepsLeft(p: Plan, j: Job): nat
    requires j.context < |p.contexts| && j.done <= p.contexts[j.context].length
  {
    match j.phase
    case Loop(reported) => 2 * (p.contexts[j.context].length - j.done) + (if reported then 0 else 1) + 2
    case Finishing => 1
    case Ended => 0
  }

  ghost function WorkLeft(p: Plan, jobs: seq<Job>, n: nat): nat
    requires WellFormed(p) && JobsShaped(p, jobs) && n <= |jobs|
  {
    if n == 0 then 0 else WorkLeft(p, jobs, n - 1) + StepsLeft(p, jobs[n - 1])
  }

  lemma {:induction false} WorkShrinks(p: Plan, jobs: seq<Job>, a: nat, j: Job, n: nat)
    requires WellFormed(p) && JobsShaped(p, jobs) && n <= |jobs| && a < |jobs| && JobsShaped(p, jobs[a := j])
    requires j.context < |p.contexts| && j.done <= p.contexts[j.context].length
    requires StepsLeft(p, j) < StepsLeft(p, jobs[a])
    ensures a < n ==> WorkLeft(p, jobs[a := j], n) < WorkLeft(p, jobs, n)
    ensures a >= n ==> WorkLeft(p, jobs[a := j], n) == WorkLeft(p, jobs, n)
    decreases n
  {
    hide WellFormed, StepsLeft;
    if n > 0 {
      WorkShrinks(p, jobs, a, j, n - 1);
      assert n - 1 != a ==> jobs[a := j][n - 1] == jobs[n - 1];
    }
  }

  lemma WorkerStepShrinks(p: Plan, s: State, a: nat)
    requires Inv(p, s) && a < |s.jobs| && !s.jobs[a].phase.Ended?
    ensures var t := WorkerStep(p, s, a);
      && t.boot == s.boot && Shaped(p, s) && Shaped(p, t) && |t.jobs| == |s.jobs| && t.jobs == s.jobs[a := t.jobs[a]]
      && t.jobs[a].context == s.jobs[a].context
      && StepsLeft(p, t.jobs[a]) < StepsLeft(p, s.jobs[a])
  {
    hide Inv, WorkerStep, WellFormed;
    InvIsShaped(p, s);
    WorkerStepKeeps(p, s, a);
    WorkerStepMoves(p, s, a);
    InvIsShaped(p, WorkerStep(p, s, a));
  }

  lemma WorkerMovesOn(p: Plan, s: State, a: nat)
    requires Live(p, s) && a < |s.jobs| && !s.jobs[a].phase.Ended?
    ensures WellFormed(p) && Shaped(p, s) && Live(p, WorkerStep(p, s, a))
    ensures var t := WorkerStep(p, s, a);
      && t.boot == s.boot && SameContexts(s.jobs, t.jobs)
      && WorkLeft(p, t.jobs, |t.jobs|) < WorkLeft(p, s.jobs, |s.jobs|)
  {
    hide Live, Inv, WellFormed, WorkerStep, WorkLeft, StepsLeft;
    LiveIsInv(p, s);
    WorkerLive(p, s, a);
    WorkerStepShrinks(p, s, a);
    var t := WorkerStep(p, s, a);
    WorkShrinks(p, s.jobs, a, t.jobs[a], |s.jobs|);
  }

  ghost predicate SameContexts(jobs: seq<Job>, next: seq<Job>) {
    |jobs| == |next| && forall a :: 0 <= a < |jobs| ==> jobs[a].context == next[a].context
  }

  // `t` is `s` after all its workers have ended.
  ghost predicate EndsAs(p: Plan, s: State, t: State) {
    Live(p, t) && AllEnded(t.jobs) && t.boot == s.boot && SameContexts(s.jobs, t.jobs)
  }

  lemma EndsAsBefore(p: Plan, s: State, t: State, u: State)
    requires t.boot == s.boot && SameContexts(s.jobs, t.jobs) && EndsAs(p, t, u)
    ensures EndsAs(p, s, u)
  {
    hide Live;
  }

  lemma EndsAlready(p: Plan, s: State)
    requires Live(p, s) && forall a :: 0 <= a < |s.jobs| ==> s.jobs[a].phase.Ended?
    ensures Inv(p, s) && EndsAs(p, s, Run(p, s, []))
  {
    hide Live, Inv;
    LiveIsInv(p, s);
  }

  lemma EndsAfter(p: Plan, s: State, a: nat, rest: seq<Action>)
    requires Live(p, s) && a < |s.jobs| && !s.jobs[a].phase.Ended?
    requires WellFormed(p) && Shaped(p, s) && Inv(p, WorkerStep(p, s, a))
    requires EndsAs(p, WorkerStep(p, s, a), Run(p, WorkerStep(p, s, a), rest))
    ensures Inv(p, s) && EndsAs(p, s, Run(p, s, [WorkerMoves(a)] + rest))
  {
    hide Live, Inv, WellFormed, Shaped, WorkerStep, BootStep, NotifyStep, WorkLeft, EndsAs, Run, SameContexts;
    LiveIsInv(p, s);
    WorkerMovesOn(p, s, a);
    RunOne(p, s, WorkerMoves(a), rest);
    EndsAsBefore(p, s, WorkerStep(p, s, a), Run(p, WorkerStep(p, s, a), rest));
  }

  /** Left to themselves, the workers come to their ends. */
  lemma {:induction false} WorkersEnd(p: Plan, s: State) returns (actions: seq<Action>)
    requires Live(p, s)
    ensures Inv(p, s) && EndsAs(p, s, Run(p, s, actions))
    decreases WorkLeft(p, s.jobs, |s.jobs|)
  {
    hide *;
    LiveIsInv(p, s);
    if a: nat :| a < |s.jobs| && !s.jobs[a].phase.Ended? {
      WorkerMovesOn(p, s, a);
      LiveIsInv(p, WorkerStep(p, s, a));
      var rest := WorkersEnd(p, WorkerStep(p, s, a));
      actions := [WorkerMoves(a)] + rest;
      EndsAfter(p, s, a, rest);
      return;
    }
    actions := [];
    EndsAlready(p, s);
  }

  // --------------------------------------------------------------------------
  // The boot processor returns
  // --------------------------------------------------------------------------

  // The contexts below `n` that have not been dispatched.
  ghost function Undispatched(jobs: seq<Job>, n: nat): nat {
    if n == 0 then 0 else Undispatched(jobs, n - 1) + (if Unstarted(jobs, n - 1) then 1 else 0)
  }

  lemma {:induction false} UndispatchedSame(jobs: seq<Job>, next: seq<Job>, n: nat)
    requires SameContexts(jobs, next)
    ensures Undispatched(next, n) == Undispatched(jobs, n)
  {
    if n > 0 {
      UndispatchedSame(jobs, next, n - 1);
    }
  }

  lemma {:induction false} UndispatchedShrinks(jobs: seq<Job>, j: Job, n: nat)
    requires Unstarted(jobs, j.context)
    ensures Undispatched(jobs + [j], n) <= Undispatched(jobs, n)
    ensures j.context < n ==> Undispatched(jobs + [j], n) < Undispatched(jobs, n)
  {
    if n > 0 {
      UndispatchedShrinks(jobs, j, n - 1);
      if Unstarted(jobs + [j], n - 1) {
        UnstartedBefore(jobs, j, n - 1);
      }
      assert (jobs + [j])[|jobs|] == j;
    }
  }

  // Whether the current scan can still end with every flag seen.
  predicate StillCompleted(p: Plan, s: State)
    requires WellFormed(p) && Shaped(p, s)
  {
    s.boot.completed && (s.boot.at == ReadFinished ==> s.finished[s.boot.i])
  }

  function StepsToDecide(at: Where): nat {
    match at
    case Scan => 7
    case Start => 6
    case Offer => 5
    case Dispatched => 4
    case ReadFinished => 3
    case ReadPlace => 2
    case Decide => 1
    case Returned => 0
  }

  // The steps to the end of the scan, and those of another scan if this one will not do.
  function Distance(p: Plan, b: Boot, enough: bool): nat
    requires b.i <= |p.holder|
  {
    8 * (if b.at == Decide || b.at == Returned then 0 else |p.holder| - b.i) + StepsToDecide(b.at)
    + (if enough then 0 else 8 * |p.holder| + 8)
  }

  // How many steps the boot processor has left, at most, when all workers have ended.
  function BootLeft(p: Plan, s: State): nat
    requires WellFormed(p) && Shaped(p, s)
  {
    Distance(p, s.boot, StillCompleted(p, s) || s.boot.at == Returned)
  }

  // Once all workers have ended, a thread with a run is marked as finished.
  lemma RunIsMarked(p: Plan, s: State, i: nat)
    requires Live(p, s) && AllEnded(s.jobs) && i < |p.holder| && p.holder[i].Some?
    requires s.started[i] || (s.boot.at == Dispatched && s.boot.i == i)
    ensures s.finished[i]
  {
    hide JobsOk, MemoryOk, PlacesOk, FinishedOk, StartedOk, BootOk;
    var a :| 0 <= a < |s.jobs| && s.jobs[a].context == p.holder[i].value;
  }

  // A thread that has been started, or is being dispatched, is marked as finished.
  ghost predicate Settled(p: Plan, s: State)
    requires WellFormed(p) && Shaped(p, s)
  {
    s.boot.i < |p.holder| && p.holder[s.boot.i].Some? && (s.started[s.boot.i] || s.boot.at == Dispatched) ==>
      s.finished[s.boot.i]
  }

  lemma SettledStepShrinks(p: Plan, s: State)
    requires WellFormed(p) && Shaped(p, s) && Settled(p, s) && s.boot.at != Returned && s.boot.at != Offer
    requires s.boot.at == Decide ==> s.boot.i == |p.holder|
    ensures var t := BootStep(p, s, true); t.jobs == s.jobs && Shaped(p, t) && BootLeft(p, t) < BootLeft(p, s)
  {
    hide WellFormed, JobsShaped;
    match s.boot.at
    case Scan =>
    case Start =>
    case Dispatched =>
    case ReadFinished =>
    case ReadPlace =>
    case Decide =>
  }

  lemma BootStepShrinks(p: Plan, s: State)
    requires Live(p, s) && AllEnded(s.jobs) && s.boot.at != Returned && s.boot.at != Offer
    ensures WellFormed(p) && Shaped(p, s)
    ensures var t := BootStep(p, s, true); t.jobs == s.jobs && Shaped(p, t) && BootLeft(p, t) < BootLeft(p, s)
  {
    var i := s.boot.i;
    if i < |p.holder| && p.holder[i].Some? && (s.started[i] || s.boot.at == Dispatched) {
      RunIsMarked(p, s, i);
    }
    hide EndedMarked, StartedHasRun, JobsOk, MemoryOk, PlacesOk, FinishedOk, StartedOk, BootStep, BootLeft;
    SettledStepShrinks(p, s);
  }

  lemma DispatchShrinks(p: Plan, s: State)
    requires Inv(p, s) && s.boot.at == Offer
    ensures Undispatched(BootStep(p, s, true).jobs, |p.contexts|) < Undispatched(s.jobs, |p.contexts|)
  {
    OfferedIsUnstarted(p, s);
    hide JobsOk, MemoryOk, PlacesOk, FinishedOk, StartedOk, BootOk, Unstarted;
    UndispatchedShrinks(s.jobs, NewJob(p, p.holder[s.boot.i].value), |p.contexts|);
  }

  lemma {:induction false} BootReturns(p: Plan, s: State) returns (actions: seq<Action>)
    requires Live(p, s) && AllEnded(s.jobs)
    ensures Inv(p, s) && Run(p, s, actions).boot.at == Returned
    decreases Undispatched(s.jobs, |p.contexts|), BootLeft(p, s)
  {
    LiveIsInv(p, s);
    if s.boot.at == Returned {
      actions := [];
    } else {
      var x := BootMoves(true);
      var t := BootStep(p, s, true);
      BootLive(p, s, true);
      LiveIsInv(p, t);
      if s.boot.at == Offer {
        DispatchShrinks(p, s);
        hide Live, BootStep, WellFormed, Shaped, AllEnded;
        var ending := WorkersEnd(p, t);
        var u := Run(p, t, ending);
        UndispatchedSame(t.jobs, u.jobs, |p.contexts|);
        var rest := BootReturns(p, u);
        actions := [x] + (ending + rest);
        RunOne(p, s, x, ending + rest);
        RunAppends(p, t, ending, rest);
      } else {
        BootStepShrinks(p, s);
        hide Live, BootStep, WellFormed, Shaped, AllEnded;
        var rest := BootReturns(p, t);
        actions := [x] + rest;
        RunOne(p, s, x, rest);
      }
    }
  }

  /** After any run there is a continuation in which `UefiSpin` returns. */
  lemma SpinCanReturn(p: Plan, actions: seq<Action>) returns (more: seq<Action>)
    requires WellFormed(p)
    ensures Spin(p, actions + more).boot.at == Returned
  {
    InitialHolds(p);
    RunLive(p, Initial(p), actions);
    hide Live, WellFormed, Shaped, Inv, AllEnded, Initial;
    var s := Run(p, Initial(p), actions);
    var ending := WorkersEnd(p, s);
    var rest := BootReturns(p, Run(p, s, ending));
    RunAppends(p, s, ending, rest);
    RunAppends(p, Initial(p), actions, ending + rest);
    more := ending + rest;
  }
}
