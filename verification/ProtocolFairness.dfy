/**
 * Every fair run of the parallel decryption returns: no matter how the steps interleave, it is
 * enough that offers are accepted for a while, that then every worker gets its turns, and that
 * then the boot processor gets its own.
 */
module ProtocolFairness {
  import opened Octets
  import opened Options
  import opened Protocol
  import opened ProtocolSafety
  import opened ProtocolRuns
  import opened ProtocolLiveness

  // --------------------------------------------------------------------------
  // Turns
  // --------------------------------------------------------------------------

  /** How often the boot processor moves. */
  function BootTurns(actions: seq<Action>): nat
    decreases |actions|
  {
    if actions == [] then 0 else (if actions[0].BootMoves? then 1 else 0) + BootTurns(actions[1..])
  }

  /** How often worker `a` moves. */
  function WorkerTurns(actions: seq<Action>, a: nat): nat
    decreases |actions|
  {
    if actions == [] then 0 else (if actions[0] == WorkerMoves(a) then 1 else 0) + WorkerTurns(actions[1..], a)
  }

  /** The firmware accepts whatever it is offered. */
  ghost predicate Accepting(actions: seq<Action>) {
    forall k :: 0 <= k < |actions| ==> actions[k] != BootMoves(false)
  }

  /** Turns of the boot processor that are enough for two scans. */
  function TwoScans(p: Plan): nat {
    16 * |p.holder| + 15
  }

  /** Turns of a worker that are enough for any order. */
  function WholeOrder(p: Plan): nat {
    2 * |p.memory| + 3
  }

  lemma DistanceBounded(p: Plan, b: Boot, enough: bool)
    requires b.i <= |p.holder|
    ensures Distance(p, b, enough) <= TwoScans(p)
  {}

  // --------------------------------------------------------------------------
  // While offers are accepted, every held order gets its run
  // --------------------------------------------------------------------------

  ghost predicate DispatchedBelow(p: Plan, jobs: seq<Job>, n: nat)
    requires WellFormed(p) && n <= |p.holder|
  {
    forall i :: 0 <= i < n && p.holder[i].Some? ==> !Unstarted(jobs, p.holder[i].value)
  }

  ghost predicate AllDispatched(p: Plan, jobs: seq<Job>)
    requires WellFormed(p)
  {
    DispatchedBelow(p, jobs, |p.holder|)
  }

  // The slots that the current scan has been through.
  function Passed(b: Boot): nat {
    if b.at in {Dispatched, ReadFinished, ReadPlace} then b.i + 1 else b.i
  }

  ghost function ScanLeft(p: Plan, s: State): nat
    requires WellFormed(p) && Shaped(p, s)
  {
    Distance(p, s.boot, DispatchedBelow(p, s.jobs, Passed(s.boot)) || s.boot.at == Returned)
  }

  lemma DispatchedStays(p: Plan, jobs: seq<Job>, next: seq<Job>, n: nat)
    requires WellFormed(p) && n <= |p.holder| && JobsGrow(jobs, next) && DispatchedBelow(p, jobs, n)
    ensures DispatchedBelow(p, next, n)
  {
    forall i | 0 <= i < n && p.holder[i].Some? ensures !Unstarted(next, p.holder[i].value) {
      StillStarted(jobs, next, p.holder[i].value);
    }
  }

  lemma CompleteIsStarted(p: Plan, jobs: seq<Job>, c: nat)
    requires c < |p.contexts| && Complete(p, jobs, c)
    ensures !Unstarted(jobs, c)
  {}

  lemma ReturnedIsDispatched(p: Plan, s: State)
    requires Inv(p, s) && s.boot.at == Returned
    ensures WellFormed(p) && AllDispatched(p, s.jobs)
  {
    hide JobsOk, MemoryOk, PlacesOk, FinishedOk, StartedOk, Complete, Unstarted;
    forall i | 0 <= i < |p.holder| && p.holder[i].Some? ensures !Unstarted(s.jobs, p.holder[i].value) {
      assert Held(p, p.holder[i].value);
      CompleteIsStarted(p, s.jobs, p.holder[i].value);
    }
  }

  // A slot whose flags are up has a run.
  lemma FlaggedIsStarted(p: Plan, s: State, i: nat)
    requires Live(p, s) && i < |p.holder| && p.holder[i].Some? && (s.started[i] || s.finished[i])
    ensures !Unstarted(s.jobs, p.holder[i].value)
  {
    hide JobsOk, MemoryOk, PlacesOk, StartedOk, BootOk, Complete, Unstarted;
    if !s.started[i] {
      CompleteIsStarted(p, s.jobs, p.holder[i].value);
    }
  }

  lemma PassesSlot(p: Plan, jobs: seq<Job>, n: nat)
    requires WellFormed(p) && n < |p.holder| && DispatchedBelow(p, jobs, n)
    requires p.holder[n].Some? ==> !Unstarted(jobs, p.holder[n].value)
    ensures DispatchedBelow(p, jobs, n + 1)
  {
    hide Unstarted;
  }

  lemma OfferPasses(p: Plan, s: State)
    requires Live(p, s) && s.boot.at == Offer
    ensures WellFormed(p) && Shaped(p, s) && Shaped(p, BootStep(p, s, true))
    ensures ScanLeft(p, BootStep(p, s, true)) < ScanLeft(p, s)
  {
    hide Inv, Unstarted, DispatchedBelow;
    LiveIsInv(p, s);
    BootStepKeeps(p, s, true);
    InvIsShaped(p, BootStep(p, s, true));
    StepAddsJobs(p, s, BootMoves(true));
    var t := BootStep(p, s, true);
    var c := p.holder[s.boot.i].value;
    assert t.jobs[|s.jobs|].context == c;
    RunIsStarted(t.jobs, |s.jobs|);
    if DispatchedBelow(p, s.jobs, s.boot.i) {
      DispatchedStays(p, s.jobs, t.jobs, s.boot.i);
      PassesSlot(p, t.jobs, s.boot.i);
    }
  }

  lemma RunIsStarted(jobs: seq<Job>, a: nat)
    requires a < |jobs|
    ensures !Unstarted(jobs, jobs[a].context)
  {}

  // The other steps: slots pass, and a scan that has passed them all leaves nothing to dispatch.
  lemma ScanStepShrinks(p: Plan, s: State)
    requires WellFormed(p) && Shaped(p, s) && s.boot.at != Offer && s.boot.at != Returned
    requires s.boot.at == Decide ==> s.boot.i == |p.holder|
    requires s.boot.i < |p.holder| && p.holder[s.boot.i].Some? && (s.started[s.boot.i] || s.finished[s.boot.i]) ==>
      !Unstarted(s.jobs, p.holder[s.boot.i].value)
    requires !AllDispatched(p, s.jobs) && Shaped(p, BootStep(p, s, true))
    ensures ScanLeft(p, BootStep(p, s, true)) < ScanLeft(p, s)
  {
    hide WellFormed, JobsShaped, Unstarted, DispatchedBelow;
    match s.boot.at
    case Scan =>
      if s.boot.i < |p.holder| && DispatchedBelow(p, s.jobs, s.boot.i)
        && (p.holder[s.boot.i].None? || s.started[s.boot.i] || s.finished[s.boot.i]) {
        PassesSlot(p, s.jobs, s.boot.i);
      }
    case Start =>
      if DispatchedBelow(p, s.jobs, s.boot.i) && (s.started[s.boot.i] || s.finished[s.boot.i]) {
        PassesSlot(p, s.jobs, s.boot.i);
      }
    case Dispatched =>
    case ReadFinished =>
    case ReadPlace =>
    case Decide =>
      NonePassed(p, s.jobs);
  }

  lemma NonePassed(p: Plan, jobs: seq<Job>)
    requires WellFormed(p)
    ensures DispatchedBelow(p, jobs, 0)
  {}

  lemma BootTurnShrinks(p: Plan, s: State)
    requires Live(p, s) && !AllDispatched(p, s.jobs)
    ensures WellFormed(p) && Shaped(p, s) && Shaped(p, BootStep(p, s, true))
    ensures ScanLeft(p, BootStep(p, s, true)) < ScanLeft(p, s)
  {
    hide JobsOk, MemoryOk, PlacesOk, FinishedOk, StartedOk, EndedMarked, StartedHasRun, AllDispatched, ScanLeft;
    BootStepKeeps(p, s, true);
    if s.boot.at == Returned {
      ReturnedIsDispatched(p, s);
    } else if s.boot.at == Offer {
      OfferPasses(p, s);
    } else {
      if s.boot.i < |p.holder| && p.holder[s.boot.i].Some? && (s.started[s.boot.i] || s.finished[s.boot.i]) {
        FlaggedIsStarted(p, s, s.boot.i);
      }
      ScanStepShrinks(p, s);
    }
  }

  // Nobody but the boot processor moves it, and runs stay.
  lemma OtherTurnKeeps(p: Plan, s: State, x: Action)
    requires Inv(p, s) && !x.BootMoves?
    ensures WellFormed(p) && Shaped(p, s) && Inv(p, Apply(p, s, x)) && Shaped(p, Apply(p, s, x))
    ensures Apply(p, s, x).boot == s.boot && ScanLeft(p, Apply(p, s, x)) <= ScanLeft(p, s)
  {
    hide Inv, WellFormed, WorkerStep, Unstarted, DispatchedBelow;
    InvIsShaped(p, s);
    ApplyKeeps(p, s, x);
    InvIsShaped(p, Apply(p, s, x));
    StepAddsJobs(p, s, x);
    if x.WorkerMoves? && x.run < |s.jobs| {
      WorkerStepMoves(p, s, x.run);
    }
    if DispatchedBelow(p, s.jobs, Passed(s.boot)) {
      DispatchedStays(p, s.jobs, Apply(p, s, x).jobs, Passed(s.boot));
    }
  }

  lemma NothingLeft(p: Plan, s: State)
    requires Inv(p, s)
    ensures WellFormed(p) && Shaped(p, s) && (ScanLeft(p, s) == 0 ==> AllDispatched(p, s.jobs))
  {
    if s.boot.at == Returned {
      ReturnedIsDispatched(p, s);
    }
    hide JobsOk, MemoryOk, PlacesOk, FinishedOk, StartedOk, BootOk, AllDispatched;
  }

  /** With all offers accepted, enough turns of the boot processor give every held order its run. */
  lemma {:induction false} EveryHeldOrderRuns(p: Plan, s: State, actions: seq<Action>)
    requires Live(p, s) && Accepting(actions)
    requires WellFormed(p) && Shaped(p, s) && BootTurns(actions) >= ScanLeft(p, s)
    ensures Inv(p, s) && AllDispatched(p, Run(p, s, actions).jobs)
    decreases |actions|
  {
    hide Live, Inv, WellFormed, Shaped, BootStep, ScanLeft, AllDispatched, WorkerStep, NotifyStep;
    LiveIsInv(p, s);
    NothingLeft(p, s);
    if AllDispatched(p, s.jobs) {
      DispatchedForGood(p, s, actions);
    } else if actions != [] {
      var x := actions[0];
      ApplyLive(p, s, x);
      LiveIsInv(p, Apply(p, s, x));
      if x.BootMoves? {
        BootTurnShrinks(p, s);
      } else {
        OtherTurnKeeps(p, s, x);
      }
      EveryHeldOrderRuns(p, Apply(p, s, x), actions[1..]);
    }
  }

  lemma DispatchedForGood(p: Plan, s: State, actions: seq<Action>)
    requires Inv(p, s) && WellFormed(p) && AllDispatched(p, s.jobs)
    ensures AllDispatched(p, Run(p, s, actions).jobs)
  {
    hide Inv, WellFormed, Run, DispatchedBelow;
    RunAddsJobs(p, s, actions);
    DispatchedStays(p, s.jobs, Run(p, s, actions).jobs, |p.holder|);
  }

  // --------------------------------------------------------------------------
  // Workers that get their turns come to their ends
  // --------------------------------------------------------------------------

  // A worker is moved by its own turns only, and each of them brings it closer to its end.
  lemma TurnOfWorker(p: Plan, s: State, x: Action, a: nat)
    requires Inv(p, s) && a < |s.jobs|
    ensures WellFormed(p) && Shaped(p, s) && Inv(p, Apply(p, s, x)) && Shaped(p, Apply(p, s, x))
    ensures var t := Apply(p, s, x);
      && a < |t.jobs|
      && if x == WorkerMoves(a) && !s.jobs[a].phase.Ended? then StepsLeft(p, t.jobs[a]) < StepsLeft(p, s.jobs[a])
         else t.jobs[a] == s.jobs[a]
  {
    hide Inv, WellFormed, WorkerStep, StepsLeft;
    InvIsShaped(p, s);
    ApplyKeeps(p, s, x);
    InvIsShaped(p, Apply(p, s, x));
    if x.WorkerMoves? && x.run < |s.jobs| {
      WorkerStepMoves(p, s, x.run);
      if !s.jobs[x.run].phase.Ended? {
        WorkerStepShrinks(p, s, x.run);
      }
    }
  }

  lemma NoStepsLeft(p: Plan, s: State, a: nat)
    requires WellFormed(p) && Shaped(p, s) && a < |s.jobs|
    ensures StepsLeft(p, s.jobs[a]) == 0 <==> s.jobs[a].phase.Ended?
  {
    hide WellFormed;
  }

  /** However many steps of others come between, a worker with enough turns has ended. */
  lemma {:induction false} WorkerWithTurnsEnds(p: Plan, s: State, actions: seq<Action>, a: nat)
    requires Inv(p, s) && WellFormed(p) && Shaped(p, s) && a < |s.jobs|
    requires WorkerTurns(actions, a) >= StepsLeft(p, s.jobs[a])
    ensures a < |Run(p, s, actions).jobs| && Run(p, s, actions).jobs[a].phase.Ended?
    decreases |actions|
  {
    hide Inv, WellFormed, Shaped, Apply, StepsLeft;
    if actions == [] {
      NoStepsLeft(p, s, a);
    } else {
      var t := Apply(p, s, actions[0]);
      TurnOfWorker(p, s, actions[0], a);
      NoStepsLeft(p, s, a);
      WorkerWithTurnsEnds(p, t, actions[1..], a);
    }
  }

  /** The turns of worker `a` that find it at work. */
  function TurnsAtWork(p: Plan, s: State, actions: seq<Action>, a: nat): nat
    requires Inv(p, s)
    decreases |actions|
  {
    if actions == [] then 0 else
    ApplyKeeps(p, s, actions[0]);
    (if actions[0] == WorkerMoves(a) && a < |s.jobs| && !s.jobs[a].phase.Ended? then 1 else 0)
    + TurnsAtWork(p, Apply(p, s, actions[0]), actions[1..], a)
  }

  lemma StepsWithinOrder(p: Plan, s: State, a: nat)
    requires Inv(p, s) && a < |s.jobs|
    ensures s.jobs[a].context < |p.contexts| && s.jobs[a].done <= p.contexts[s.jobs[a].context].length
    ensures StepsLeft(p, s.jobs[a]) <= WholeOrder(p)
  {}

  /** In no run does a worker take more steps than its order calls for. */
  lemma {:induction false} TurnsAtWorkBounded(p: Plan, s: State, actions: seq<Action>, a: nat)
    requires Inv(p, s) && WellFormed(p) && Shaped(p, s)
    ensures TurnsAtWork(p, s, actions, a) <= if a < |s.jobs| then StepsLeft(p, s.jobs[a]) else WholeOrder(p)
    decreases |actions|
  {
    hide Inv, WellFormed, Shaped, Apply, StepsLeft, WholeOrder;
    if actions != [] {
      var t := Apply(p, s, actions[0]);
      ApplyKeeps(p, s, actions[0]);
      InvIsShaped(p, t);
      TurnsAtWorkBounded(p, t, actions[1..], a);
      if a < |s.jobs| {
        TurnOfWorker(p, s, actions[0], a);
      } else if a < |t.jobs| {
        StepsWithinOrder(p, t, a);
      }
    }
  }

  // --------------------------------------------------------------------------
  // When all have ended, the boot processor returns
  // --------------------------------------------------------------------------

  ghost predicate Quiet(p: Plan, s: State) {
    Live(p, s) && AllDispatched(p, s.jobs) && AllEnded(s.jobs)
  }

  lemma NoOfferLeft(p: Plan, s: State)
    requires Inv(p, s) && WellFormed(p) && AllDispatched(p, s.jobs)
    ensures s.boot.at != Offer
  {
    if s.boot.at == Offer {
      OfferedIsUnstarted(p, s);
    }
    hide JobsOk, MemoryOk, PlacesOk, FinishedOk, StartedOk, BootOk, Unstarted;
  }

  lemma SameJobs(p: Plan, s: State, x: Action)
    requires Inv(p, s) && WellFormed(p) && Shaped(p, s) && AllDispatched(p, s.jobs)
    ensures |Apply(p, s, x).jobs| == |s.jobs|
  {
    hide Inv, AllDispatched, WellFormed, WorkerStep;
    NoOfferLeft(p, s);
    if x.WorkerMoves? && x.run < |s.jobs| {
      WorkerStepMoves(p, s, x.run);
    }
  }

  /** When every held order has its run, no step adds another. */
  lemma {:induction false} NoMoreRuns(p: Plan, s: State, actions: seq<Action>)
    requires Inv(p, s) && WellFormed(p) && AllDispatched(p, s.jobs)
    ensures |Run(p, s, actions).jobs| == |s.jobs|
    decreases |actions|
  {
    hide Inv, AllDispatched, WellFormed, Apply;
    if actions != [] {
      InvIsShaped(p, s);
      ApplyKeeps(p, s, actions[0]);
      SameJobs(p, s, actions[0]);
      DispatchedForGood(p, s, [actions[0]]);
      assert [actions[0]][1..] == [];
      NoMoreRuns(p, Apply(p, s, actions[0]), actions[1..]);
    }
  }

  lemma QuietBootTurn(p: Plan, s: State, accepted: bool)
    requires Quiet(p, s) && s.boot.at != Returned
    ensures WellFormed(p) && Shaped(p, s)
    ensures var t := BootStep(p, s, accepted); Shaped(p, t) && Quiet(p, t) && BootLeft(p, t) < BootLeft(p, s)
  {
    hide Live, AllDispatched, BootLeft, WellFormed, AllEnded;
    LiveIsInv(p, s);
    NoOfferLeft(p, s);
    BootStepShrinks(p, s);
    assert BootStep(p, s, accepted) == BootStep(p, s, true);
    BootLive(p, s, accepted);
  }

  lemma QuietOtherTurn(p: Plan, s: State, x: Action)
    requires Quiet(p, s) && !x.BootMoves?
    ensures WellFormed(p) && Shaped(p, s) && Apply(p, s, x) == s
  {
    hide Inv, StartedHasRun, AllDispatched, WellFormed;
    LiveIsInv(p, s);
    match x
    case WorkerMoves(a) =>
    case EventFires(a) =>
      if a < |s.jobs| {
        var i := p.contexts[s.jobs[a].context].slot;
        assert s.finished[i];
        assert s.finished[i := true] == s.finished;
      }
  }

  lemma ReturnedForGood(p: Plan, s: State, actions: seq<Action>)
    requires Inv(p, s) && s.boot.at == Returned
    ensures Run(p, s, actions).boot.at == Returned
  {
    hide Inv, Run;
    MemorySettledOnReturn(p, s, actions);
  }

  lemma NoTurnsLeft(p: Plan, s: State)
    requires WellFormed(p) && Shaped(p, s) && BootLeft(p, s) == 0
    ensures s.boot.at == Returned
  {
    hide WellFormed, JobsShaped;
  }

  /** With all orders done, enough turns of the boot processor make it return, whatever the firmware accepts. */
  lemma {:induction false} QuietRunReturns(p: Plan, s: State, actions: seq<Action>)
    requires Quiet(p, s) && WellFormed(p) && Shaped(p, s) && BootTurns(actions) >= BootLeft(p, s)
    ensures Inv(p, s) && Run(p, s, actions).boot.at == Returned
    decreases |actions|
  {
    hide Quiet, Inv, WellFormed, Shaped, BootStep, BootLeft, WorkerStep, NotifyStep;
    QuietIsLive(p, s);
    if s.boot.at == Returned {
      ReturnedForGood(p, s, actions);
    } else if actions == [] {
      NoTurnsLeft(p, s);
    } else {
      ApplyKeeps(p, s, actions[0]);
      if actions[0].BootMoves? {
        QuietBootTurn(p, s, actions[0].accepted);
      } else {
        QuietOtherTurn(p, s, actions[0]);
      }
      QuietRunReturns(p, Apply(p, s, actions[0]), actions[1..]);
    }
  }

  lemma QuietIsLive(p: Plan, s: State)
    requires Quiet(p, s)
    ensures Live(p, s) && Inv(p, s)
  {
    hide Live, AllDispatched;
    LiveIsInv(p, s);
  }

  // --------------------------------------------------------------------------
  // Fair runs
  // --------------------------------------------------------------------------

  /**
   * After any beginning: a stretch with all offers accepted and two scans' worth of boot turns, a
   * stretch with an order's worth of turns for each worker, and a stretch with two scans' worth of
   * boot turns, each mixed with any other steps in any way.
   */
  ghost predicate Fair(p: Plan, before: seq<Action>, offering: seq<Action>, working: seq<Action>, closing: seq<Action>)
    requires WellFormed(p)
  {
    && Accepting(offering) && BootTurns(offering) >= TwoScans(p)
    && (forall a: nat :: a < |Spin(p, before + offering).jobs| ==> WorkerTurns(working, a) >= WholeOrder(p))
    && BootTurns(closing) >= TwoScans(p)
  }

  lemma OfferingDispatches(p: Plan, before: seq<Action>, offering: seq<Action>)
    requires WellFormed(p) && Accepting(offering) && BootTurns(offering) >= TwoScans(p)
    ensures Live(p, Spin(p, before + offering)) && AllDispatched(p, Spin(p, before + offering).jobs)
  {
    hide Live, Inv, WellFormed, Run, AllDispatched, TwoScans, Initial, Shaped;
    InitialIsLive(p);
    LiveIsInv(p, Initial(p));
    var s := Run(p, Initial(p), before);
    RunLive(p, Initial(p), before);
    RunLive(p, Initial(p), before + offering);
    RunAppends(p, Initial(p), before, offering);
    LiveIsInv(p, s);
    ScanLeftBounded(p, s);
    EveryHeldOrderRuns(p, s, offering);
  }

  lemma InitialIsLive(p: Plan)
    requires WellFormed(p)
    ensures Live(p, Initial(p))
  {
    InitialHolds(p);
    hide Inv, WellFormed;
  }

  lemma ScanLeftBounded(p: Plan, s: State)
    requires WellFormed(p) && Shaped(p, s)
    ensures ScanLeft(p, s) <= TwoScans(p) && BootLeft(p, s) <= TwoScans(p)
  {
    hide WellFormed, TwoScans, Distance, DispatchedBelow, StillCompleted, JobsShaped;
    DistanceBounded(p, s.boot, DispatchedBelow(p, s.jobs, Passed(s.boot)) || s.boot.at == Returned);
    DistanceBounded(p, s.boot, StillCompleted(p, s) || s.boot.at == Returned);
  }

  lemma WorkingEnds(p: Plan, s: State, working: seq<Action>)
    requires Live(p, s) && WellFormed(p) && AllDispatched(p, s.jobs)
    requires forall a: nat :: a < |s.jobs| ==> WorkerTurns(working, a) >= WholeOrder(p)
    ensures Inv(p, s) && Quiet(p, Run(p, s, working))
  {
    hide Live, Inv, WellFormed, Shaped, Run, AllDispatched, WholeOrder, StepsLeft;
    LiveIsInv(p, s);
    RunLive(p, s, working);
    DispatchedForGood(p, s, working);
    NoMoreRuns(p, s, working);
    forall a: nat | a < |s.jobs| ensures Run(p, s, working).jobs[a].phase.Ended? {
      StepsWithinOrder(p, s, a);
      WorkerWithTurnsEnds(p, s, working, a);
    }
  }

  /** Every fair run of `UefiSpin` returns, whatever has happened before and however its steps interleave. */
  lemma FairRunReturns(p: Plan, before: seq<Action>, offering: seq<Action>, working: seq<Action>, closing: seq<Action>)
    requires WellFormed(p) && Fair(p, before, offering, working, closing)
    ensures Spin(p, before + offering + working + closing).boot.at == Returned
  {
    hide Live, Inv, WellFormed, Shaped, Run, AllDispatched, Quiet, TwoScans, WholeOrder, Initial, BootLeft, ScanLeft;
    InitialHolds(p);
    var start := before + offering;
    OfferingDispatches(p, before, offering);
    var s := Spin(p, start);
    WorkingEnds(p, s, working);
    var t := Run(p, s, working);
    QuietIsLive(p, t);
    LiveIsInv(p, t);
    ScanLeftBounded(p, t);
    QuietRunReturns(p, t, closing);
    RunAppends(p, s, working, closing);
    RunAppends(p, Initial(p), start, working + closing);
    assert before + offering + working + closing == start + (working + closing);
  }
}
