/**
 * Whole runs of the parallel decryption: any list of steps of the boot processor, the workers
 * and the firmware's completion events, in any order.
 */
module ProtocolRuns {
  import opened Octets
  import opened Protocol
  import opened ProtocolSafety
  import Fips197
  import Cbc

  /** Who moves next: the boot processor, a worker, or the firmware's event for a worker. */
  datatype Action = BootMoves(accepted: bool) | WorkerMoves(run: nat) | EventFires(run: nat)

  // A worker that does not exist has no step to take.
  function Apply(p: Plan, s: State, x: Action): State
    requires WellFormed(p) && Shaped(p, s)
  {
    match x
    case BootMoves(accepted) => BootStep(p, s, accepted)
    case WorkerMoves(a) => if a < |s.jobs| then WorkerStep(p, s, a) else s
    case EventFires(a) => if a < |s.jobs| then NotifyStep(p, s, a) else s
  }

  lemma ApplyKeeps(p: Plan, s: State, x: Action)
    requires Inv(p, s)
    ensures Inv(p, Apply(p, s, x))
  {
    hide Inv, WorkerStep, NotifyStep, BootStep;
    InvIsShaped(p, s);
    match x
    case BootMoves(accepted) => BootStepKeeps(p, s, accepted);
    case WorkerMoves(a) => if a < |s.jobs| { WorkerStepKeeps(p, s, a); }
    case EventFires(a) => if a < |s.jobs| { NotifyStepKeeps(p, s, a); }
  }

  lemma InvIsShaped(p: Plan, s: State)
    requires Inv(p, s)
    ensures WellFormed(p) && Shaped(p, s)
  {}

  /** The state after a list of steps; every state a run can reach satisfies the invariant. */
  function Run(p: Plan, s: State, actions: seq<Action>): (r: State)
    requires Inv(p, s)
    ensures Inv(p, r)
    decreases |actions|
  {
    if actions == [] then s else
    ApplyKeeps(p, s, actions[0]);
    Run(p, Apply(p, s, actions[0]), actions[1..])
  }

  /** A run of `UefiSpin` from its start. */
  function Spin(p: Plan, actions: seq<Action>): (r: State)
    requires WellFormed(p)
    ensures Inv(p, r)
  {
    InitialHolds(p);
    Run(p, Initial(p), actions)
  }

  // --------------------------------------------------------------------------
  // Safety
  // --------------------------------------------------------------------------

  lemma StepAddsJobs(p: Plan, s: State, x: Action)
    requires Inv(p, s)
    ensures WellFormed(p) && Shaped(p, s) && JobsGrow(s.jobs, Apply(p, s, x).jobs)
  {
    hide Inv, WellFormed, WorkerStep;
    InvIsShaped(p, s);
    match x
    case BootMoves(accepted) =>
    case WorkerMoves(a) => if a < |s.jobs| { WorkerStepMoves(p, s, a); }
    case EventFires(a) =>
  }

  lemma {:induction false} RunAddsJobs(p: Plan, s: State, actions: seq<Action>)
    requires Inv(p, s)
    ensures JobsGrow(s.jobs, Run(p, s, actions).jobs)
    decreases |actions|
  {
    hide Inv, Apply;
    if actions != [] {
      ApplyKeeps(p, s, actions[0]);
      StepAddsJobs(p, s, actions[0]);
      RunAddsJobs(p, Apply(p, s, actions[0]), actions[1..]);
    }
  }

  lemma {:induction false} RunAppends(p: Plan, s: State, actions: seq<Action>, more: seq<Action>)
    requires Inv(p, s)
    ensures Run(p, s, actions + more) == Run(p, Run(p, s, actions), more)
    decreases |actions|
  {
    hide Inv, Apply;
    if actions == [] {
      assert actions + more == more;
    } else {
      InvIsShaped(p, s);
      assert (actions + more)[0] == actions[0] && (actions + more)[1..] == actions[1..] + more;
      ApplyKeeps(p, s, actions[0]);
      RunAppends(p, Apply(p, s, actions[0]), actions[1..], more);
    }
  }

  /** Once a thread has been given to a processor, it is never given to one again, however the steps interleave. */
  lemma NoOrderRunsTwice(p: Plan, actions: seq<Action>, more: seq<Action>, a: nat, b: nat)
    requires WellFormed(p) && a < |Spin(p, actions).jobs|
    ensures var later := Spin(p, actions + more).jobs;
      && |Spin(p, actions).jobs| <= |later| && later[a].context == Spin(p, actions).jobs[a].context
      && (b < |later| && b != a ==> later[b].context != later[a].context)
  {
    hide WellFormed, Shaped, MemoryOk, PlacesOk, FinishedOk, StartedOk, BootOk, JobOk, Run;
    InitialHolds(p);
    RunAppends(p, Initial(p), actions, more);
    RunAddsJobs(p, Spin(p, actions), more);
  }

  /** At any moment a region is the CBC decryption of a whole number of its blocks, followed by its original bytes. */
  lemma RegionsAdvanceByBlocks(p: Plan, actions: seq<Action>, c: nat) returns (n: nat)
    requires WellFormed(p) && c < |p.contexts|
    ensures n <= p.contexts[c].length && n % 16 == 0
    ensures Region(p, Spin(p, actions).memory, c) == Partly(p, c, n)
  {
    hide Spin, Partly, Region, BootOk, FinishedOk, PlacesOk, StartedOk, JobOk;
    var s := Spin(p, actions);
    if Unstarted(s.jobs, c) {
      n := 0;
      NothingDecrypted(p, c);
    } else {
      var a :| 0 <= a < |s.jobs| && s.jobs[a].context == c;
      n := s.jobs[a].done;
    }
  }

  /** The decryption of what a region first held, under the key and IV its context was given. */
  function Decrypted(p: Plan, c: nat): seq<byte>
    requires WellFormed(p) && c < |p.contexts|
  {
    Cbc.Decrypt(KeySchedule(p.contexts[c]), p.contexts[c].iv, p.Original(c))
  }

  lemma PartlyEnds(p: Plan, c: nat)
    requires WellFormed(p) && c < |p.contexts|
    ensures Partly(p, c, p.contexts[c].length) == Decrypted(p, c)
  {
    var orig := p.Original(c);
    assert orig[..|orig|] == orig && orig[|orig|..] == [];
  }

  /** What a context's region holds in the end: its decryption, or its first bytes if its slot has let go of it. */
  function InTheEnd(p: Plan, c: nat): seq<byte>
    requires WellFormed(p) && c < |p.contexts|
  {
    if Held(p, c) then Decrypted(p, c) else p.Original(c)
  }

  ghost predicate HeldDecrypted(p: Plan, memory: seq<byte>)
    requires WellFormed(p)
  {
    && |memory| == |p.memory|
    && (forall c :: 0 <= c < |p.contexts| ==> Region(p, memory, c) == InTheEnd(p, c))
    && (forall m :: 0 <= m < |memory| && Uncovered(p, m) ==> memory[m] == p.memory[m])
  }

  lemma CompleteIsDecrypted(p: Plan, s: State)
    requires Inv(p, s) && AllComplete(p, s.jobs)
    ensures HeldDecrypted(p, s.memory)
  {
    hide Partly, Region, Decrypted, BootOk, FinishedOk, PlacesOk, StartedOk, JobOk;
    forall c | 0 <= c < |p.contexts| ensures Region(p, s.memory, c) == InTheEnd(p, c) {
      if Held(p, c) {
        assert Complete(p, s.jobs, c);
        PartlyEnds(p, c);
      } else {
        assert Unstarted(s.jobs, c);
      }
    }
  }

  /** An order that its slot has let go of is never run: at every moment its region holds its first bytes. */
  lemma LostOrderNeverRuns(p: Plan, actions: seq<Action>, c: nat)
    requires WellFormed(p) && c < |p.contexts| && !Held(p, c)
    ensures Unstarted(Spin(p, actions).jobs, c)
    ensures Region(p, Spin(p, actions).memory, c) == p.Original(c)
  {
    hide Spin, Region, Partly, BootOk, FinishedOk, PlacesOk, StartedOk, JobOk;
    var s := Spin(p, actions);
    assert Unstarted(s.jobs, c);
  }

  /** When `UefiSpin` has returned, the orders that have been run to the end are those that are held. */
  lemma CompleteExactlyWhenHeld(p: Plan, actions: seq<Action>, c: nat)
    requires WellFormed(p) && Spin(p, actions).boot.at == Returned && c < |p.contexts|
    ensures Complete(p, Spin(p, actions).jobs, c) <==> Held(p, c)
  {
    hide Spin, MemoryOk, FinishedOk, PlacesOk, StartedOk, JobOk;
    assert Inv(p, Spin(p, actions));
  }

  /** `UefiSpin` returns only when every held region has been decrypted; nothing else has changed. */
  lemma SpinReturnsDecrypted(p: Plan, actions: seq<Action>)
    requires WellFormed(p) && Spin(p, actions).boot.at == Returned
    ensures HeldDecrypted(p, Spin(p, actions).memory)
  {
    hide Spin, HeldDecrypted;
    CompleteIsDecrypted(p, Spin(p, actions));
  }

  // The bytes of memory are settled by the regions and what lies outside them.
  lemma HeldDecryptedIsUnique(p: Plan, memory: seq<byte>, other: seq<byte>)
    requires WellFormed(p) && HeldDecrypted(p, memory) && HeldDecrypted(p, other)
    ensures memory == other
  {
    hide InTheEnd, WellFormed;
    forall m: nat | m < |memory| ensures memory[m] == other[m] {
      if !Uncovered(p, m) {
        var c :| 0 <= c < |p.contexts| && Inside(p.contexts[c], m);
        RegionByte(p, memory, c, m);
        RegionByte(p, other, c, m);
      }
    }
  }

  lemma RegionByte(p: Plan, memory: seq<byte>, c: nat, m: nat)
    requires WellFormed(p) && c < |p.contexts| && |memory| == |p.memory| && Inside(p.contexts[c], m)
    ensures |Region(p, memory, c)| == p.contexts[c].length && m < |memory|
    ensures memory[m] == Region(p, memory, c)[m - p.contexts[c].location]
  {}

  /** However the steps interleave, `UefiSpin` leaves the same memory. */
  lemma EveryInterleavingAgrees(p: Plan, actions: seq<Action>, others: seq<Action>)
    requires WellFormed(p) && Spin(p, actions).boot.at == Returned && Spin(p, others).boot.at == Returned
    ensures Spin(p, actions).memory == Spin(p, others).memory
  {
    hide Spin, HeldDecrypted;
    SpinReturnsDecrypted(p, actions);
    SpinReturnsDecrypted(p, others);
    HeldDecryptedIsUnique(p, Spin(p, actions).memory, Spin(p, others).memory);
  }

  lemma ReturnedStays(p: Plan, s: State, x: Action)
    requires Inv(p, s) && s.boot.at == Returned
    ensures WellFormed(p) && Shaped(p, s) && Apply(p, s, x).boot.at == Returned
  {
    hide BlockMemory, BlockJob, JobsOk, MemoryOk, PlacesOk, FinishedOk, StartedOk, BootOk;
  }

  /** Workers may still be reporting when `UefiSpin` has returned, but they no longer touch the memory. */
  lemma {:induction false} MemorySettledOnReturn(p: Plan, s: State, actions: seq<Action>)
    requires Inv(p, s) && s.boot.at == Returned
    ensures Run(p, s, actions).boot.at == Returned && Run(p, s, actions).memory == s.memory
    decreases |actions|
  {
    hide Inv, HeldDecrypted, Apply, AllComplete;
    InvIsShaped(p, s);
    ReturnedDecrypted(p, s);
    if actions != [] {
      ApplyKeeps(p, s, actions[0]);
      ReturnedStays(p, s, actions[0]);
      var t := Apply(p, s, actions[0]);
      ReturnedDecrypted(p, t);
      HeldDecryptedIsUnique(p, s.memory, t.memory);
      MemorySettledOnReturn(p, t, actions[1..]);
    }
  }

  lemma ReturnedDecrypted(p: Plan, s: State)
    requires Inv(p, s) && s.boot.at == Returned
    ensures WellFormed(p) && HeldDecrypted(p, s.memory)
  {
    hide HeldDecrypted;
    CompleteIsDecrypted(p, s);
  }

  /** The sum that the spin compares with the queued bytes never exceeds them. */
  lemma ProgressWithinTotal(p: Plan, actions: seq<Action>)
    requires WellFormed(p)
    ensures Spin(p, actions).boot.progress <= p.total
  {
    var s := Spin(p, actions);
    hide Spin, JobsOk, MemoryOk, FinishedOk, StartedOk, Complete, SlotsComplete, AllComplete;
    forall c | 0 <= c < |p.contexts| ensures s.places[c] <= p.contexts[c].length {
      hide PlacesOk;
      PlaceWithinLength(p, s.places, s.jobs, c);
    }
    PlacesReachLengths(p, s.places, s.boot.i);
    SlotSumGrows(p, s.boot.i, |p.holder|);
  }

  lemma {:induction false} SlotSumGrows(p: Plan, n: nat, m: nat)
    requires WellFormed(p) && n <= m <= |p.holder|
    ensures SlotSum(p, n) <= SlotSum(p, m)
    decreases m
  {
    if n < m {
      SlotSumGrows(p, n, m - 1);
    }
  }

  // --------------------------------------------------------------------------
  // One sequential decryption
  // --------------------------------------------------------------------------

  /**
   * The contexts in `order` cover memory from `from` to `to` without a gap, share a key, and
   * each has for its IV the ciphertext block before its region (`iv` for the first).
   */
  ghost predicate Chained(p: Plan, order: seq<nat>, key: Fips197.Key, iv: Fips197.Block, from: nat, to: nat)
    requires WellFormed(p)
    decreases |order|
  {
    if order == [] then from == to <= |p.memory| else
    && Held(p, order[0])
    && p.contexts[order[0]].key == key && p.contexts[order[0]].iv == iv && p.contexts[order[0]].location == from
    && Chained(p, order[1..], key, Cbc.LastBlock(iv, p.Original(order[0])), from + p.contexts[order[0]].length, to)
  }

  // A stretch of memory that is a whole number of blocks.
  predicate Stretch(memory: seq<byte>, from: nat, to: nat) {
    from <= to <= |memory| && (to - from) % 16 == 0
  }

  /** From `from` to `to`, `after` is one CBC decryption of `before`. */
  predicate OneDecryption(key: Fips197.Key, iv: Fips197.Block, before: seq<byte>, after: seq<byte>,
                          from: nat, to: nat) {
    && |after| == |before| && Stretch(before, from, to)
    && after[from..to] == Cbc.Decrypt(Fips197.ExpandedKey(key), iv, before[from..to])
  }

  lemma StretchesJoin(memory: seq<byte>, from: nat, middle: nat, to: nat)
    requires Stretch(memory, from, middle) && Stretch(memory, middle, to)
    ensures Stretch(memory, from, to)
  {}

  lemma SlicesJoin(s: seq<byte>, from: nat, middle: nat, to: nat)
    requires from <= middle <= to <= |s|
    ensures s[from..to] == s[from..middle] + s[middle..to]
  {}

  lemma DecryptJoins(key: Fips197.Key, iv: Fips197.Block, before: seq<byte>, after: seq<byte>,
                     from: nat, middle: nat, to: nat)
    requires OneDecryption(key, iv, before, after, from, middle)
    requires OneDecryption(key, Cbc.LastBlock(iv, before[from..middle]), before, after, middle, to)
    ensures OneDecryption(key, iv, before, after, from, to)
  {
    StretchesJoin(before, from, middle, to);
    hide Cbc.Decrypt, Cbc.LastBlock, Stretch, Fips197.ExpandedKey;
    var head, tail := before[from..middle], before[middle..to];
    Cbc.DecryptSplits(Fips197.ExpandedKey(key), iv, head, tail);
    SlicesJoin(before, from, middle, to);
    SlicesJoin(after, from, middle, to);
  }

  // The first region of a chain, and the rest of the chain.
  lemma ChainedFirst(p: Plan, order: seq<nat>, key: Fips197.Key, iv: Fips197.Block, from: nat, to: nat)
    requires WellFormed(p) && Chained(p, order, key, iv, from, to) && order != []
    ensures Held(p, order[0])
    ensures var c := p.contexts[order[0]];
      && c.key == key && c.iv == iv && c.location == from && Stretch(p.memory, from, from + c.length)
      && Chained(p, order[1..], key, Cbc.LastBlock(iv, p.Original(order[0])), from + c.length, to)
  {}

  lemma HeldIsDecrypted(p: Plan, memory: seq<byte>, c: nat)
    requires WellFormed(p) && HeldDecrypted(p, memory) && Held(p, c)
    ensures var x := p.contexts[c]; OneDecryption(x.key, x.iv, p.memory, memory, x.location, x.location + x.length)
  {
    hide Cbc.Decrypt, Fips197.ExpandedKey;
    assert Region(p, memory, c) == InTheEnd(p, c);
  }

  lemma ChainEnds(p: Plan, memory: seq<byte>, key: Fips197.Key, iv: Fips197.Block, from: nat, to: nat)
    requires WellFormed(p) && HeldDecrypted(p, memory) && Chained(p, [], key, iv, from, to)
    ensures OneDecryption(key, iv, p.memory, memory, from, to)
  {
    hide WellFormed;
    Cbc.DecryptNothing(Fips197.ExpandedKey(key), iv);
  }

  lemma {:induction false} ChainedDecrypts(p: Plan, memory: seq<byte>, order: seq<nat>,
                                           key: Fips197.Key, iv: Fips197.Block, from: nat, to: nat)
    requires WellFormed(p) && HeldDecrypted(p, memory) && Chained(p, order, key, iv, from, to)
    ensures OneDecryption(key, iv, p.memory, memory, from, to)
    decreases |order|
  {
    hide Cbc.LastBlock, Cbc.Decrypt, Stretch, Chained, HeldDecrypted, WellFormed, OneDecryption;
    if order == [] {
      ChainEnds(p, memory, key, iv, from, to);
    } else {
      ChainedFirst(p, order, key, iv, from, to);
      var middle := from + p.contexts[order[0]].length;
      HeldIsDecrypted(p, memory, order[0]);
      ChainedDecrypts(p, memory, order[1..], key, Cbc.LastBlock(iv, p.Original(order[0])), middle, to);
      DecryptJoins(key, iv, p.memory, memory, from, middle, to);
    }
  }

  /** Work orders that chain make the parallel decryption one sequential decryption of the buffer. */
  lemma ParallelIsSequential(p: Plan, actions: seq<Action>, order: seq<nat>,
                             key: Fips197.Key, iv: Fips197.Block, from: nat, to: nat)
    requires WellFormed(p) && Spin(p, actions).boot.at == Returned && Chained(p, order, key, iv, from, to)
    ensures OneDecryption(key, iv, p.memory, Spin(p, actions).memory, from, to)
  {
    SpinReturnsDecrypted(p, actions);
    hide Spin;
    ChainedDecrypts(p, Spin(p, actions).memory, order, key, iv, from, to);
  }
}
