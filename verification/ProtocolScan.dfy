/**
 * What one scan of the spin finds out. It reads flags and places one after the other while the
 * workers go on, so its sum is that of no single moment; but it is never less than at the start
 * of the scan and never more than at its end, and no flag that was up at the start is missed.
 */
module ProtocolScan {
  import opened Octets
  import opened Options
  import opened Protocol
  import opened ProtocolSafety
  import opened ProtocolRuns

  // --------------------------------------------------------------------------
  // Places and flags only grow
  // --------------------------------------------------------------------------

  ghost predicate Grown(p: Plan, places: seq<nat>, finished: seq<bool>, t: State)
    requires |places| == |p.contexts| && |finished| == |p.holder|
  {
    && |t.places| == |p.contexts| && |t.finished| == |p.holder|
    && (forall c :: 0 <= c < |places| ==> places[c] <= t.places[c])
    && (forall i :: 0 <= i < |finished| && finished[i] ==> t.finished[i])
  }

  lemma PlaceBehindBlocks(p: Plan, s: State, a: nat)
    requires Inv(p, s) && a < |s.jobs|
    ensures s.jobs[a].context < |p.contexts| && |s.places| == |p.contexts| && |s.finished| == |p.holder|
    ensures s.places[s.jobs[a].context] <= s.jobs[a].done <= p.contexts[s.jobs[a].context].length
  {
    hide JobsOk, MemoryOk, FinishedOk, StartedOk, BootOk;
  }

  lemma StepGrows(p: Plan, s: State, x: Action)
    requires Inv(p, s)
    ensures WellFormed(p) && Shaped(p, s) && Grown(p, s.places, s.finished, Apply(p, s, x))
  {
    hide Inv, WellFormed, BlockMemory;
    InvIsShaped(p, s);
    match x
    case BootMoves(accepted) =>
    case WorkerMoves(a) => if a < |s.jobs| { PlaceBehindBlocks(p, s, a); }
    case EventFires(a) =>
  }

  lemma GrownAgain(p: Plan, places: seq<nat>, finished: seq<bool>, s: State, t: State)
    requires |places| == |s.places| == |p.contexts| && |finished| == |s.finished| == |p.holder|
    requires Grown(p, places, finished, s) && Grown(p, s.places, s.finished, t)
    ensures Grown(p, places, finished, t)
  {}

  // --------------------------------------------------------------------------
  // A scan from its start to its decision
  // --------------------------------------------------------------------------

  ghost predicate AllUp(p: Plan, finished: seq<bool>)
    requires |finished| == |p.holder|
  {
    forall i :: 0 <= i < |p.holder| && p.holder[i].Some? ==> finished[i]
  }

  // The scan so far, when it began with these places and flags.
  ghost predicate Scanned(p: Plan, places: seq<nat>, finished: seq<bool>, s: State)
    requires WellFormed(p) && Shaped(p, s) && |places| == |p.contexts| && |finished| == |p.holder|
  {
    && Grown(p, places, finished, s)
    && PlaceSum(p, places, s.boot.i) <= s.boot.progress
    && (AllUp(p, finished) ==> s.boot.completed)
  }

  lemma BootStepScans(p: Plan, places: seq<nat>, finished: seq<bool>, s: State, accepted: bool)
    requires Inv(p, s) && WellFormed(p) && Shaped(p, s) && |places| == |p.contexts| && |finished| == |p.holder|
    requires Scanned(p, places, finished, s) && s.boot.at != Decide && s.boot.at != Returned
    ensures Shaped(p, BootStep(p, s, accepted)) && Scanned(p, places, finished, BootStep(p, s, accepted))
  {
    hide Inv, WellFormed, JobsShaped;
    BootStepKeeps(p, s, accepted);
    InvIsShaped(p, BootStep(p, s, accepted));
    StepGrows(p, s, BootMoves(accepted));
    GrownAgain(p, places, finished, s, BootStep(p, s, accepted));
    match s.boot.at
    case Scan =>
    case Start =>
    case Offer =>
    case Dispatched =>
    case ReadFinished =>
    case ReadPlace =>
  }

  lemma OtherStepScans(p: Plan, places: seq<nat>, finished: seq<bool>, s: State, x: Action)
    requires Inv(p, s) && WellFormed(p) && Shaped(p, s) && |places| == |p.contexts| && |finished| == |p.holder|
    requires Scanned(p, places, finished, s) && !x.BootMoves?
    ensures Shaped(p, Apply(p, s, x)) && Scanned(p, places, finished, Apply(p, s, x))
  {
    hide Inv, WellFormed, WorkerStep, Grown, AllUp;
    ApplyKeeps(p, s, x);
    InvIsShaped(p, Apply(p, s, x));
    StepGrows(p, s, x);
    GrownAgain(p, places, finished, s, Apply(p, s, x));
    if x.WorkerMoves? && x.run < |s.jobs| {
      WorkerStepMoves(p, s, x.run);
    }
  }

  /** The boot processor does not come to a decision before the last of these steps. */
  predicate OneScan(p: Plan, s: State, actions: seq<Action>)
    requires Inv(p, s)
    decreases |actions|
  {
    if actions == [] then true else
    ApplyKeeps(p, s, actions[0]);
    s.boot.at != Decide && s.boot.at != Returned && OneScan(p, Apply(p, s, actions[0]), actions[1..])
  }

  lemma {:induction false} ScanContinues(p: Plan, places: seq<nat>, finished: seq<bool>, s: State, actions: seq<Action>)
    requires Inv(p, s) && WellFormed(p) && Shaped(p, s) && |places| == |p.contexts| && |finished| == |p.holder|
    requires Scanned(p, places, finished, s) && OneScan(p, s, actions)
    ensures var t := Run(p, s, actions); Shaped(p, t) && Scanned(p, places, finished, t)
    decreases |actions|
  {
    hide Inv, WellFormed, Shaped, Scanned, BootStep, WorkerStep, NotifyStep;
    if actions != [] {
      var x := actions[0];
      ApplyKeeps(p, s, x);
      InvIsShaped(p, Apply(p, s, x));
      if x.BootMoves? {
        BootStepScans(p, places, finished, s, x.accepted);
      } else {
        OtherStepScans(p, places, finished, s, x);
      }
      ScanContinues(p, places, finished, Apply(p, s, x), actions[1..]);
    }
  }

  lemma DecidesAtTheEnd(p: Plan, s: State)
    requires Inv(p, s) && s.boot.at == Decide
    ensures WellFormed(p) && Shaped(p, s) && s.boot.i == |p.holder|
    ensures s.boot.progress <= PlaceSum(p, s.places, |p.holder|)
  {
    hide JobsOk, MemoryOk, PlacesOk, FinishedOk, StartedOk;
  }

  lemma ScanBegins(p: Plan, s: State)
    requires WellFormed(p) && Shaped(p, s) && s.boot == Boot(Scan, 0, true, 0)
    ensures Scanned(p, s.places, s.finished, s)
  {}

  /** The sum at the decision lies between the sums of the places at the start and at the end of the scan. */
  lemma SumOfAScan(p: Plan, s: State, actions: seq<Action>)
    requires Inv(p, s) && s.boot == Boot(Scan, 0, true, 0) && OneScan(p, s, actions)
    requires Run(p, s, actions).boot.at == Decide
    ensures WellFormed(p) && Shaped(p, s) && Shaped(p, Run(p, s, actions))
    ensures var t := Run(p, s, actions);
      && PlaceSum(p, s.places, |p.holder|) <= t.boot.progress <= PlaceSum(p, t.places, |p.holder|)
      && (AllUp(p, s.finished) ==> t.boot.completed)
  {
    hide Inv, WellFormed, Shaped, Run, OneScan, PlaceSum, AllUp;
    InvIsShaped(p, s);
    ShapedLengths(p, s);
    ScanBegins(p, s);
    ScanContinues(p, s.places, s.finished, s, actions);
    DecidesAtTheEnd(p, Run(p, s, actions));
  }

  lemma ShapedLengths(p: Plan, s: State)
    requires Shaped(p, s)
    ensures |s.places| == |p.contexts| && |s.finished| == |p.holder|
  {}

  /**
   * Either exit is enough: if, when a scan begins, all flags of held threads are up, or their
   * places already add up to the queued bytes, then the boot processor returns after this scan.
   */
  lemma ScanReturns(p: Plan, s: State, actions: seq<Action>, accepted: bool)
    requires Inv(p, s) && s.boot == Boot(Scan, 0, true, 0) && OneScan(p, s, actions)
    requires Run(p, s, actions).boot.at == Decide
    requires WellFormed(p) && Shaped(p, s)
    requires AllUp(p, s.finished) || PlaceSum(p, s.places, |p.holder|) >= p.total
    ensures Shaped(p, Run(p, s, actions)) && BootStep(p, Run(p, s, actions), accepted).boot.at == Returned
  {
    hide Inv, WellFormed, Shaped, Run, OneScan, PlaceSum, AllUp;
    SumOfAScan(p, s, actions);
  }
}
