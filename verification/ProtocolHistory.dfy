/**
 * Which block is decrypted when: along any run of the parallel decryption, every block of every
 * work order is decrypted at most once, and exactly once by the time `UefiSpin` returns.
 */
module ProtocolHistory {
  import opened Protocol
  import opened ProtocolSafety
  import opened ProtocolRuns

  /** The block of a context that begins `at` bytes into its region. */
  datatype BlockRef = BlockRef(context: nat, at: nat)

  // The block that a step decrypts, if any: a worker's step that moves the worker on.
  function Touched(p: Plan, s: State, x: Action): seq<BlockRef>
    requires Inv(p, s)
  {
    if x.WorkerMoves? && x.run < |s.jobs| then
      WorkerStepMoves(p, s, x.run);
      if WorkerStep(p, s, x.run).jobs[x.run].done != s.jobs[x.run].done
      then [BlockRef(s.jobs[x.run].context, s.jobs[x.run].done)] else []
    else []
  }

  /** The blocks that a list of steps decrypts, in order. */
  function History(p: Plan, s: State, actions: seq<Action>): seq<BlockRef>
    requires Inv(p, s)
    decreases |actions|
  {
    if actions == [] then [] else
    ApplyKeeps(p, s, actions[0]);
    Touched(p, s, actions[0]) + History(p, Apply(p, s, actions[0]), actions[1..])
  }

  ghost predicate DoneIn(jobs: seq<Job>, b: BlockRef) {
    exists a :: 0 <= a < |jobs| && jobs[a].context == b.context && b.at < jobs[a].done
  }

  // 1 for a block that has been decrypted, 0 for any other place.
  ghost function Count(jobs: seq<Job>, b: BlockRef): nat {
    if b.at % 16 == 0 && DoneIn(jobs, b) then 1 else 0
  }

  lemma SameCount(jobs: seq<Job>, a: nat, j: Job, b: BlockRef)
    requires a < |jobs| && j.context == jobs[a].context && j.done == jobs[a].done
    ensures Count(jobs[a := j], b) == Count(jobs, b)
  {
    var next := jobs[a := j];
    if i :| 0 <= i < |jobs| && jobs[i].context == b.context && b.at < jobs[i].done {
      assert next[i].context == b.context && b.at < next[i].done;
    }
    if i :| 0 <= i < |next| && next[i].context == b.context && b.at < next[i].done {
      assert jobs[i].context == b.context && b.at < jobs[i].done;
    }
  }

  // No other run has the context, so its blocks are the ones this run has done.
  lemma DoneByItsRun(jobs: seq<Job>, a: nat, b: BlockRef)
    requires RunOnce(jobs) && a < |jobs| && jobs[a].context == b.context
    ensures DoneIn(jobs, b) <==> b.at < jobs[a].done
  {
    if i :| 0 <= i < |jobs| && jobs[i].context == b.context && b.at < jobs[i].done {
      assert i == a;
    }
  }

  lemma OtherContextSame(jobs: seq<Job>, a: nat, j: Job, b: BlockRef)
    requires a < |jobs| && j.context == jobs[a].context != b.context
    ensures DoneIn(jobs[a := j], b) <==> DoneIn(jobs, b)
  {
    var next := jobs[a := j];
    if i :| 0 <= i < |jobs| && jobs[i].context == b.context && b.at < jobs[i].done {
      assert next[i] == jobs[i];
    }
    if i :| 0 <= i < |next| && next[i].context == b.context && b.at < next[i].done {
      assert next[i] == jobs[i];
    }
  }

  lemma NextBlock(n: nat, done: nat)
    requires n % 16 == 0 && done % 16 == 0
    ensures n < done + 16 <==> n < done || n == done
  {}

  lemma BlockCount(jobs: seq<Job>, a: nat, j: Job, b: BlockRef)
    requires a < |jobs| && j.context == jobs[a].context && j.done == jobs[a].done + 16 && jobs[a].done % 16 == 0
    requires RunOnce(jobs) && RunOnce(jobs[a := j])
    ensures Count(jobs[a := j], b) == Count(jobs, b) + (if b == BlockRef(jobs[a].context, jobs[a].done) then 1 else 0)
  {
    if b.context != jobs[a].context {
      OtherContextSame(jobs, a, j, b);
    } else if b.at % 16 == 0 {
      DoneByItsRun(jobs, a, b);
      DoneByItsRun(jobs[a := j], a, b);
      NextBlock(b.at, jobs[a].done);
    }
  }

  lemma NewRunCount(jobs: seq<Job>, j: Job, b: BlockRef)
    requires j.done == 0
    ensures Count(jobs + [j], b) == Count(jobs, b)
  {
    var next := jobs + [j];
    if i :| 0 <= i < |jobs| && jobs[i].context == b.context && b.at < jobs[i].done {
      assert next[i] == jobs[i];
    }
    if i :| 0 <= i < |next| && next[i].context == b.context && b.at < next[i].done {
      assert next[i] == jobs[i];
    }
  }

  lemma InvRunOnce(p: Plan, s: State)
    requires Inv(p, s)
    ensures RunOnce(s.jobs) && forall a :: 0 <= a < |s.jobs| ==> s.jobs[a].done % 16 == 0
  {}

  lemma WorkerTouches(p: Plan, s: State, a: nat, b: BlockRef)
    requires Inv(p, s) && a < |s.jobs|
    ensures Count(WorkerStep(p, s, a).jobs, b) == Count(s.jobs, b) + multiset(Touched(p, s, WorkerMoves(a)))[b]
  {
    InvRunOnce(p, s);
    WorkerStepMoves(p, s, a);
    WorkerStepKeeps(p, s, a);
    InvRunOnce(p, WorkerStep(p, s, a));
    hide Inv, WorkerStep, RunOnce, Count;
    var j := WorkerStep(p, s, a).jobs[a];
    if j.done == s.jobs[a].done {
      SameCount(s.jobs, a, j, b);
    } else {
      BlockCount(s.jobs, a, j, b);
    }
  }

  lemma BootLeavesJobs(p: Plan, s: State, accepted: bool)
    requires WellFormed(p) && Shaped(p, s)
    ensures BootStep(p, s, accepted).jobs == s.jobs
         || exists j: Job :: j.done == 0 && BootStep(p, s, accepted).jobs == s.jobs + [j]
  {}

  lemma StepTouches(p: Plan, s: State, x: Action, b: BlockRef)
    requires Inv(p, s)
    ensures Count(Apply(p, s, x).jobs, b) == Count(s.jobs, b) + multiset(Touched(p, s, x))[b]
  {
    hide Inv, Count, BootStep, WorkerStep, RunOnce;
    InvIsShaped(p, s);
    match x
    case BootMoves(accepted) =>
      BootLeavesJobs(p, s, accepted);
      if j: Job :| j.done == 0 && BootStep(p, s, accepted).jobs == s.jobs + [j] {
        NewRunCount(s.jobs, j, b);
      }
    case WorkerMoves(a) => if a < |s.jobs| { WorkerTouches(p, s, a, b); }
    case EventFires(a) =>
  }

  /** Along any run, a block is decrypted once if it becomes done, and not at all otherwise. */
  lemma {:induction false} HistoryCounts(p: Plan, s: State, actions: seq<Action>, b: BlockRef)
    requires Inv(p, s)
    ensures Count(Run(p, s, actions).jobs, b) == Count(s.jobs, b) + multiset(History(p, s, actions))[b]
    decreases |actions|
  {
    hide Inv, Count, Apply, Touched;
    if actions != [] {
      InvIsShaped(p, s);
      var t := Apply(p, s, actions[0]);
      ApplyKeeps(p, s, actions[0]);
      StepTouches(p, s, actions[0], b);
      HistoryCounts(p, t, actions[1..], b);
    }
  }

  /** From the start of the spin, no block is ever decrypted twice. */
  lemma NoBlockTwice(p: Plan, actions: seq<Action>, b: BlockRef)
    requires WellFormed(p)
    ensures Inv(p, Initial(p)) && multiset(History(p, Initial(p), actions))[b] <= 1
  {
    InitialHolds(p);
    HistoryCounts(p, Initial(p), actions, b);
    hide Inv, History, Run;
  }

  /** When `UefiSpin` returns, exactly the blocks of the held orders have been decrypted, each once. */
  lemma EachBlockOnce(p: Plan, actions: seq<Action>, b: BlockRef)
    requires WellFormed(p) && Spin(p, actions).boot.at == Returned
    ensures Inv(p, Initial(p))
    ensures multiset(History(p, Initial(p), actions))[b]
         == if Held(p, b.context) && b.at < p.contexts[b.context].length && b.at % 16 == 0 then 1 else 0
  {
    InitialHolds(p);
    HistoryCounts(p, Initial(p), actions, b);
    var jobs := Spin(p, actions).jobs;
    assert AllComplete(p, jobs) && JobsShaped(p, jobs);
    hide Inv, History, Run, Spin, WellFormed;
    if Held(p, b.context) && b.at < p.contexts[b.context].length {
      assert Complete(p, jobs, b.context);
      assert DoneIn(jobs, b);
    }
  }
}
