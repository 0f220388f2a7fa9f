/**
 * What every step of the parallel decryption keeps, and what that means for a whole run: no
 * order is run twice, and the boot processor does not return before the last block is done.
 */
module ProtocolSafety {
  import opened Octets
  import opened Options
  import opened Protocol
  import AesCbc
  import Fips197
  import Cbc

  // --------------------------------------------------------------------------
  // The invariant
  // --------------------------------------------------------------------------

  ghost predicate Unstarted(jobs: seq<Job>, c: nat) {
    forall a :: 0 <= a < |jobs| ==> jobs[a].context != c
  }

  /** Some run of the context has decrypted all its blocks. */
  ghost predicate Complete(p: Plan, jobs: seq<Job>, c: nat)
    requires c < |p.contexts|
  {
    exists a :: 0 <= a < |jobs| && jobs[a].context == c && jobs[a].done == p.contexts[c].length
  }

  /** No context is run twice. */
  ghost predicate RunOnce(jobs: seq<Job>) {
    forall a, b :: 0 <= a < b < |jobs| ==> jobs[a].context != jobs[b].context
  }

  function KeySchedule(c: Context): Fips197.Schedule {
    Fips197.ExpandedKey(c.key)
  }

  /** The region of a context when its first `n` bytes have been decrypted. */
  function Partly(p: Plan, c: nat, n: nat): seq<byte>
    requires WellFormed(p) && c < |p.contexts| && n <= p.contexts[c].length && n % 16 == 0
  {
    Cbc.Decrypt(KeySchedule(p.contexts[c]), p.contexts[c].iv, p.Original(c)[..n]) + p.Original(c)[n..]
  }

  function Region(p: Plan, memory: seq<byte>, c: nat): seq<byte>
    requires WellFormed(p) && c < |p.contexts| && |memory| == |p.memory|
  {
    memory[p.contexts[c].location..p.contexts[c].location + p.contexts[c].length]
  }

  ghost predicate JobOk(p: Plan, j: Job)
    requires WellFormed(p) && j.context < |p.contexts| && j.done <= p.contexts[j.context].length && j.done % 16 == 0
  {
    && (!j.phase.Loop? ==> j.done == p.contexts[j.context].length)
    && j.iv == Cbc.LastBlock(p.contexts[j.context].iv, p.Original(j.context)[..j.done])
  }

  ghost predicate JobsOk(p: Plan, jobs: seq<Job>)
    requires WellFormed(p) && JobsShaped(p, jobs)
  {
    RunOnce(jobs) && forall a :: 0 <= a < |jobs| ==> JobOk(p, jobs[a])
  }

  // A byte of memory that no context covers.
  ghost predicate Uncovered(p: Plan, m: nat) {
    forall c :: 0 <= c < |p.contexts| ==> !Inside(p.contexts[c], m)
  }

  ghost predicate MemoryOk(p: Plan, memory: seq<byte>, jobs: seq<Job>)
    requires WellFormed(p) && JobsShaped(p, jobs) && |memory| == |p.memory|
  {
    && (forall a :: 0 <= a < |jobs| ==> Region(p, memory, jobs[a].context) == Partly(p, jobs[a].context, jobs[a].done))
    && (forall c :: 0 <= c < |p.contexts| && Unstarted(jobs, c) ==> Region(p, memory, c) == p.Original(c))
    && (forall m :: 0 <= m < |memory| && Uncovered(p, m) ==> memory[m] == p.memory[m])
  }

  // A worker's place never runs ahead of its blocks.
  ghost predicate PlacesOk(p: Plan, places: seq<nat>, jobs: seq<Job>)
    requires WellFormed(p) && JobsShaped(p, jobs) && |places| == |p.contexts|
  {
    && (forall a :: 0 <= a < |jobs| ==> places[jobs[a].context] <= jobs[a].done)
    && (forall c :: 0 <= c < |p.contexts| && Unstarted(jobs, c) ==> places[c] == 0)
  }

  // A finished thread is complete.
  ghost predicate FinishedOk(p: Plan, finished: seq<bool>, jobs: seq<Job>)
    requires WellFormed(p) && JobsShaped(p, jobs) && |finished| == |p.holder|
  {
    forall i :: 0 <= i < |p.holder| && p.holder[i].Some? && finished[i] ==> Complete(p, jobs, p.holder[i].value)
  }

  // A run of a thread that is not marked as started is the one that is just being dispatched.
  ghost predicate StartedOk(p: Plan, started: seq<bool>, jobs: seq<Job>, boot: Boot)
    requires WellFormed(p) && JobsShaped(p, jobs) && |started| == |p.holder|
  {
    forall a :: 0 <= a < |jobs| ==>
      started[p.contexts[jobs[a].context].slot] || (boot.at == Dispatched && boot.i == p.contexts[jobs[a].context].slot)
  }

  /** The places of the contexts held by the slots below `n`. */
  function PlaceSum(p: Plan, places: seq<nat>, n: nat): nat
    requires WellFormed(p) && |places| == |p.contexts| && n <= |p.holder|
  {
    if n == 0 then 0
    else PlaceSum(p, places, n - 1) + (if p.holder[n - 1].Some? then places[p.holder[n - 1].value] else 0)
  }

  // The slots whose flag the current scan has read.
  function FlagsRead(b: Boot): nat {
    if b.at == ReadPlace then b.i + 1 else b.i
  }

  ghost predicate SlotsComplete(p: Plan, jobs: seq<Job>, n: nat)
    requires WellFormed(p) && n <= |p.holder|
  {
    forall i :: 0 <= i < n && p.holder[i].Some? ==> Complete(p, jobs, p.holder[i].value)
  }

  ghost predicate AllComplete(p: Plan, jobs: seq<Job>) {
    forall c :: 0 <= c < |p.contexts| && Held(p, c) ==> Complete(p, jobs, c)
  }

  ghost predicate BootOk(p: Plan, s: State)
    requires WellFormed(p) && Shaped(p, s)
  {
    && (s.boot.at == Offer ==> !s.started[s.boot.i])
    && s.boot.progress <= PlaceSum(p, s.places, s.boot.i)
    && (s.boot.completed ==> SlotsComplete(p, s.jobs, FlagsRead(s.boot)))
    && (s.boot.at == Decide ==> s.boot.i == |p.holder|)
    && (s.boot.at == Returned ==> AllComplete(p, s.jobs))
  }

  ghost predicate Inv(p: Plan, s: State) {
    && WellFormed(p) && Shaped(p, s)
    && JobsOk(p, s.jobs)
    && MemoryOk(p, s.memory, s.jobs)
    && PlacesOk(p, s.places, s.jobs)
    && FinishedOk(p, s.finished, s.jobs)
    && StartedOk(p, s.started, s.jobs, s.boot)
    && BootOk(p, s)
  }

  // --------------------------------------------------------------------------
  // The invariant holds at first
  // --------------------------------------------------------------------------

  lemma InitialHolds(p: Plan)
    requires WellFormed(p)
    ensures Inv(p, Initial(p))
  {}

  // --------------------------------------------------------------------------
  // Steps of the boot processor
  // --------------------------------------------------------------------------

  lemma {:induction false} PlacesReachLengths(p: Plan, places: seq<nat>, n: nat)
    requires WellFormed(p) && |places| == |p.contexts| && n <= |p.holder|
    requires forall c :: 0 <= c < |places| ==> places[c] <= p.contexts[c].length
    ensures PlaceSum(p, places, n) <= SlotSum(p, n)
    ensures PlaceSum(p, places, n) == SlotSum(p, n) ==>
      forall i :: 0 <= i < n && p.holder[i].Some? ==> places[p.holder[i].value] == p.contexts[p.holder[i].value].length
  {
    if n > 0 {
      PlacesReachLengths(p, places, n - 1);
    }
  }

  lemma PlaceWithinLength(p: Plan, places: seq<nat>, jobs: seq<Job>, c: nat)
    requires WellFormed(p) && JobsShaped(p, jobs) && |places| == |p.contexts| && PlacesOk(p, places, jobs)
    requires c < |p.contexts|
    ensures places[c] <= p.contexts[c].length
    ensures places[c] == p.contexts[c].length ==> Complete(p, jobs, c)
  {
    if !Unstarted(jobs, c) {
      var a :| 0 <= a < |jobs| && jobs[a].context == c;
    }
  }

  /** The spin ends only when every context is complete: all flags are up, or all bytes are reported. */
  lemma SpinEndsComplete(p: Plan, s: State)
    requires Inv(p, s) && s.boot.at == Decide && (s.boot.completed || s.boot.progress >= p.total)
    ensures AllComplete(p, s.jobs)
  {
    hide JobsOk, MemoryOk, FinishedOk, StartedOk, PlacesOk, Complete;
    forall c | 0 <= c < |p.contexts| && Held(p, c) ensures Complete(p, s.jobs, c) {
      var i := p.contexts[c].slot;
      assert p.holder[i] == Some(c);
      if !s.boot.completed {
        forall d | 0 <= d < |p.contexts| ensures s.places[d] <= p.contexts[d].length {
          PlaceWithinLength(p, s.places, s.jobs, d);
        }
        PlacesReachLengths(p, s.places, |p.holder|);
        PlaceWithinLength(p, s.places, s.jobs, c);
      }
    }
  }

  lemma StartedStays(p: Plan, started: seq<bool>, jobs: seq<Job>, boot: Boot, next: Boot)
    requires WellFormed(p) && JobsShaped(p, jobs) && |started| == |p.holder|
    requires StartedOk(p, started, jobs, boot) && boot.at != Dispatched
    ensures StartedOk(p, started, jobs, next)
  {}

  lemma SlotsCompleteExtends(p: Plan, s: State)
    requires Inv(p, s) && s.boot.at == ReadFinished && s.finished[s.boot.i]
    requires SlotsComplete(p, s.jobs, s.boot.i)
    ensures SlotsComplete(p, s.jobs, s.boot.i + 1)
  {
    hide Complete;
  }

  lemma EmptySlotSkipped(p: Plan, jobs: seq<Job>, n: nat)
    requires WellFormed(p) && n < |p.holder| && p.holder[n].None?
    requires SlotsComplete(p, jobs, n)
    ensures SlotsComplete(p, jobs, n + 1)
  {}

  // Where the boot processor goes, and what it has read, when it neither dispatches nor marks a thread.
  lemma ReadingStepBootOk(p: Plan, s: State, accepted: bool)
    requires Inv(p, s) && s.boot.at != Dispatched && !(s.boot.at == Offer && accepted)
    ensures var t := BootStep(p, s, accepted); t == s.(boot := t.boot) && Shaped(p, t) && BootOk(p, t)
  {
    hide JobsOk, MemoryOk, PlacesOk, StartedOk, JobsShaped, Complete, AllComplete;
    match s.boot.at
    case Scan =>
      if s.boot.i < |p.holder| && p.holder[s.boot.i].None? && s.boot.completed {
        EmptySlotSkipped(p, s.jobs, s.boot.i);
      }
    case ReadFinished =>
      if s.boot.completed && s.finished[s.boot.i] {
        SlotsCompleteExtends(p, s);
      }
    case Decide =>
      if s.boot.completed || s.boot.progress >= p.total {
        SpinEndsComplete(p, s);
      }
    case _ =>
  }

  lemma ReadingStepKeeps(p: Plan, s: State, accepted: bool)
    requires Inv(p, s) && s.boot.at != Dispatched && !(s.boot.at == Offer && accepted)
    ensures Inv(p, BootStep(p, s, accepted))
  {
    ReadingStepBootOk(p, s, accepted);
    StartedStays(p, s.started, s.jobs, s.boot, BootStep(p, s, accepted).boot);
    hide WellFormed, JobsShaped, JobsOk, MemoryOk, PlacesOk, FinishedOk, StartedOk, BootOk, BootStep;
  }

  lemma StartedStepKeeps(p: Plan, s: State, accepted: bool)
    requires Inv(p, s) && s.boot.at == Dispatched
    ensures Inv(p, BootStep(p, s, accepted))
  {
    var t := BootStep(p, s, accepted);
    assert StartedOk(p, t.started, t.jobs, t.boot);
    hide JobsOk, MemoryOk, PlacesOk, FinishedOk, StartedOk, SlotsComplete, AllComplete;
  }

  /** Every step of the boot processor keeps the invariant. */
  lemma BootStepKeeps(p: Plan, s: State, accepted: bool)
    requires Inv(p, s)
    ensures Inv(p, BootStep(p, s, accepted))
  {
    if s.boot.at == Dispatched {
      StartedStepKeeps(p, s, accepted);
    } else if s.boot.at == Offer && accepted {
      DispatchKeeps(p, s);
    } else {
      ReadingStepKeeps(p, s, accepted);
    }
  }

  /** A context that is offered has never been run, so accepting it does not run it twice. */
  lemma OfferedIsUnstarted(p: Plan, s: State)
    requires Inv(p, s) && s.boot.at == Offer
    ensures Unstarted(s.jobs, p.holder[s.boot.i].value)
  {}

  function NewJob(p: Plan, c: nat): Job
    requires c < |p.contexts|
  {
    Job(c, Loop(false), 0, p.contexts[c].iv)
  }

  // A new run, with nothing decrypted yet, of a context that had none.
  lemma JobsOkWithNew(p: Plan, jobs: seq<Job>, c: nat)
    requires WellFormed(p) && JobsShaped(p, jobs) && Held(p, c) && Unstarted(jobs, c) && JobsOk(p, jobs)
    ensures var next := jobs + [NewJob(p, c)]; JobsShaped(p, next) && JobsGrow(jobs, next) && JobsOk(p, next)
  {
    NothingDecrypted(p, c);
    hide JobOk;
  }

  lemma UnstartedBefore(jobs: seq<Job>, j: Job, c: nat)
    requires Unstarted(jobs + [j], c)
    ensures Unstarted(jobs, c)
  {
    assert forall a :: 0 <= a < |jobs| ==> (jobs + [j])[a] == jobs[a];
  }

  lemma MemoryOkWithNew(p: Plan, memory: seq<byte>, jobs: seq<Job>, c: nat)
    requires WellFormed(p) && JobsShaped(p, jobs) && Held(p, c) && Unstarted(jobs, c)
    requires |memory| == |p.memory| && MemoryOk(p, memory, jobs)
    ensures var next := jobs + [NewJob(p, c)]; JobsShaped(p, next) && MemoryOk(p, memory, next)
  {
    NothingDecrypted(p, c);
    hide WellFormed, Partly, Region;
    var next := jobs + [NewJob(p, c)];
    forall d | 0 <= d < |p.contexts| && Unstarted(next, d) ensures Unstarted(jobs, d) {
      UnstartedBefore(jobs, NewJob(p, c), d);
    }
  }

  lemma PlacesOkWithNew(p: Plan, places: seq<nat>, jobs: seq<Job>, c: nat)
    requires WellFormed(p) && JobsShaped(p, jobs) && Held(p, c) && Unstarted(jobs, c)
    requires |places| == |p.contexts| && PlacesOk(p, places, jobs)
    ensures var next := jobs + [NewJob(p, c)]; JobsShaped(p, next) && PlacesOk(p, places, next)
  {
    hide WellFormed;
    var next := jobs + [NewJob(p, c)];
    assert next[|jobs|] == NewJob(p, c);
    forall d | 0 <= d < |p.contexts| && Unstarted(next, d) ensures Unstarted(jobs, d) {
      UnstartedBefore(jobs, NewJob(p, c), d);
    }
  }

  lemma StartedOkWithNew(p: Plan, started: seq<bool>, jobs: seq<Job>, boot: Boot, c: nat)
    requires WellFormed(p) && JobsShaped(p, jobs) && Held(p, c) && |started| == |p.holder|
    requires boot.at == Offer && p.contexts[c].slot == boot.i && StartedOk(p, started, jobs, boot)
    ensures var next := jobs + [NewJob(p, c)];
      JobsShaped(p, next) && StartedOk(p, started, next, boot.(at := Dispatched))
  {}

  lemma DispatchKeeps(p: Plan, s: State)
    requires Inv(p, s) && s.boot.at == Offer
    ensures Inv(p, BootStep(p, s, true))
  {
    var c := p.holder[s.boot.i].value;
    var next := s.jobs + [NewJob(p, c)];
    OfferedIsUnstarted(p, s);
    JobsOkWithNew(p, s.jobs, c);
    MemoryOkWithNew(p, s.memory, s.jobs, c);
    PlacesOkWithNew(p, s.places, s.jobs, c);
    StartedOkWithNew(p, s.started, s.jobs, s.boot, c);
    FinishedStays(p, s.finished, s.jobs, next);
    SlotsCompleteStay(p, s.jobs, next, s.boot.i);
    hide JobsOk, MemoryOk, PlacesOk, FinishedOk, StartedOk, SlotsComplete, AllComplete, Complete;
  }

  lemma NothingDecrypted(p: Plan, c: nat)
    requires WellFormed(p) && c < |p.contexts|
    ensures Partly(p, c, 0) == p.Original(c)
    ensures JobOk(p, NewJob(p, c))
  {
    assert p.Original(c)[..0] == [];
  }

  // Runs are only ever added, and never lose blocks.
  ghost predicate JobsGrow(jobs: seq<Job>, next: seq<Job>) {
    |jobs| <= |next| &&
    forall a :: 0 <= a < |jobs| ==> next[a].context == jobs[a].context && jobs[a].done <= next[a].done
  }

  lemma CompleteStays(p: Plan, jobs: seq<Job>, next: seq<Job>, c: nat)
    requires WellFormed(p) && JobsShaped(p, jobs) && JobsShaped(p, next) && JobsGrow(jobs, next)
    requires c < |p.contexts| && Complete(p, jobs, c)
    ensures Complete(p, next, c)
  {
    var a :| 0 <= a < |jobs| && jobs[a].context == c && jobs[a].done == p.contexts[c].length;
    assert next[a].context == c;
  }

  lemma FinishedStays(p: Plan, finished: seq<bool>, jobs: seq<Job>, next: seq<Job>)
    requires WellFormed(p) && JobsShaped(p, jobs) && JobsShaped(p, next) && JobsGrow(jobs, next)
    requires |finished| == |p.holder| && FinishedOk(p, finished, jobs)
    ensures FinishedOk(p, finished, next)
  {
    forall i | 0 <= i < |p.holder| && p.holder[i].Some? && finished[i] ensures Complete(p, next, p.holder[i].value) {
      CompleteStays(p, jobs, next, p.holder[i].value);
    }
  }

  lemma SlotsCompleteStay(p: Plan, jobs: seq<Job>, next: seq<Job>, n: nat)
    requires WellFormed(p) && JobsShaped(p, jobs) && JobsShaped(p, next) && JobsGrow(jobs, next) && n <= |p.holder|
    ensures SlotsComplete(p, jobs, n) ==> SlotsComplete(p, next, n)
  {
    if SlotsComplete(p, jobs, n) {
      forall i | 0 <= i < n && p.holder[i].Some? ensures Complete(p, next, p.holder[i].value) {
        CompleteStays(p, jobs, next, p.holder[i].value);
      }
    }
  }

  // --------------------------------------------------------------------------
  // Steps of a worker
  // --------------------------------------------------------------------------

  lemma {:induction false} PlaceSumGrows(p: Plan, places: seq<nat>, next: seq<nat>, n: nat)
    requires WellFormed(p) && |places| == |next| == |p.contexts| && n <= |p.holder|
    requires forall c :: 0 <= c < |places| ==> places[c] <= next[c]
    ensures PlaceSum(p, places, n) <= PlaceSum(p, next, n)
  {
    if n > 0 {
      PlaceSumGrows(p, places, next, n - 1);
    }
  }

  /** What the boot processor has read stays true while workers move on: places and flags only grow. */
  lemma BootOkStays(p: Plan, s: State, t: State)
    requires WellFormed(p) && Shaped(p, s) && Shaped(p, t) && BootOk(p, s)
    requires t.boot == s.boot && t.started == s.started && JobsGrow(s.jobs, t.jobs)
    requires forall c :: 0 <= c < |p.contexts| ==> s.places[c] <= t.places[c]
    ensures BootOk(p, t)
  {
    PlaceSumGrows(p, s.places, t.places, s.boot.i);
    SlotsCompleteStay(p, s.jobs, t.jobs, FlagsRead(s.boot));
    if s.boot.at == Returned {
      forall c | 0 <= c < |p.contexts| && Held(p, c) ensures Complete(p, t.jobs, c) {
        CompleteStays(p, s.jobs, t.jobs, c);
      }
    }
    hide PlaceSum, SlotsComplete, Complete;
  }

  // A step of run `a` that leaves its context alone and may add to what it has done.
  lemma JobsOkAfterStep(p: Plan, jobs: seq<Job>, a: nat, j: Job)
    requires WellFormed(p) && JobsShaped(p, jobs) && a < |jobs| && JobsOk(p, jobs)
    requires j.context == jobs[a].context && jobs[a].done <= j.done <= p.contexts[j.context].length
    requires j.done % 16 == 0 && JobOk(p, j)
    ensures var next := jobs[a := j];
      JobsShaped(p, next) && JobsGrow(jobs, next) && JobsOk(p, next)
  {
    hide JobOk, WellFormed;
  }

  lemma StartedOkAfterStep(p: Plan, started: seq<bool>, jobs: seq<Job>, boot: Boot, a: nat, j: Job)
    requires WellFormed(p) && a < |jobs| && |started| == |p.holder|
    requires JobsShaped(p, jobs) && JobsShaped(p, jobs[a := j])
    requires j.context == jobs[a].context && StartedOk(p, started, jobs, boot)
    ensures StartedOk(p, started, jobs[a := j], boot)
  {}

  lemma SameUnstarted(jobs: seq<Job>, a: nat, j: Job, c: nat)
    requires a < |jobs| && j.context == jobs[a].context
    ensures Unstarted(jobs[a := j], c) <==> Unstarted(jobs, c)
  {
    forall b | 0 <= b < |jobs| ensures jobs[a := j][b].context == jobs[b].context {}
  }

  lemma PlacesOkAfterStep(p: Plan, places: seq<nat>, jobs: seq<Job>, a: nat, j: Job, place: nat)
    requires WellFormed(p) && a < |jobs| && JobsShaped(p, jobs) && JobsShaped(p, jobs[a := j])
    requires |places| == |p.contexts| && RunOnce(jobs) && PlacesOk(p, places, jobs)
    requires j.context == jobs[a].context && place <= j.done
    ensures PlacesOk(p, places[j.context := place], jobs[a := j])
  {
    hide WellFormed;
    var next, after := jobs[a := j], places[j.context := place];
    forall c: nat | c < |p.contexts| && Unstarted(next, c) ensures after[c] == 0 {
      SameUnstarted(jobs, a, j, c);
      assert jobs[a].context != c;
    }
  }

  lemma MemoryOkSameDone(p: Plan, memory: seq<byte>, jobs: seq<Job>, a: nat, j: Job)
    requires WellFormed(p) && a < |jobs| && JobsShaped(p, jobs) && JobsShaped(p, jobs[a := j])
    requires |memory| == |p.memory| && MemoryOk(p, memory, jobs)
    requires j.context == jobs[a].context && j.done == jobs[a].done
    ensures MemoryOk(p, memory, jobs[a := j])
  {
    hide WellFormed, Partly, Region;
    forall c | 0 <= c < |p.contexts| && Unstarted(jobs[a := j], c) ensures Unstarted(jobs, c) {
      SameUnstarted(jobs, a, j, c);
    }
  }

  // --- A block ---

  lemma PartlyGrows(p: Plan, c: nat, n: nat)
    requires WellFormed(p) && c < |p.contexts| && n % 16 == 0 && n < p.contexts[c].length
    ensures n + 16 <= p.contexts[c].length
    ensures var block := p.Original(c)[n..n + 16];
      var iv := Cbc.LastBlock(p.contexts[c].iv, p.Original(c)[..n]);
      && Partly(p, c, n)[n..n + 16] == block
      && Splice(Partly(p, c, n), n, DecryptedBlock(p.contexts[c], iv, block)) == Partly(p, c, n + 16)
      && Cbc.LastBlock(p.contexts[c].iv, p.Original(c)[..n + 16]) == block
  {
    hide Fips197.InvCipher, Fips197.AddBlocks, Fips197.ExpandedKey;
    var ctx, orig := p.contexts[c], p.Original(c);
    var head, block := orig[..n], orig[n..n + 16];
    assert orig[..n + 16] == head + block;
    Cbc.DecryptSplits(KeySchedule(ctx), ctx.iv, head, block);
    assert block[..16] == block;
    var m := Cbc.Decrypt(KeySchedule(ctx), ctx.iv, head);
    var x := DecryptedBlock(ctx, Cbc.LastBlock(ctx.iv, head), block);
    assert Cbc.Decrypt(KeySchedule(ctx), ctx.iv, head + block) == m + x;
    assert orig[n..] == block + orig[n + 16..];
    SpliceBetween(m, block, orig[n + 16..], x);
  }

  lemma SpliceBetween(a: seq<byte>, b: seq<byte>, c: seq<byte>, x: seq<byte>)
    requires |x| == |b|
    ensures (a + (b + c))[|a|..|a| + |b|] == b
    ensures Splice(a + (b + c), |a|, x) == (a + x) + c
  {}

  // A block of a region, and the region when that block is overwritten.
  lemma BlockOfRegion(memory: seq<byte>, at: nat, length: nat, n: nat, x: Fips197.Block)
    requires at + length <= |memory| && n + 16 <= length
    ensures memory[at..at + length][n..n + 16] == memory[at + n..at + n + 16]
    ensures Splice(memory, at + n, x)[at..at + length] == Splice(memory[at..at + length], n, x)
  {
    SliceOfSlice(memory, at, length, n, 16);
  }

  lemma OtherRegionAfterWrite(p: Plan, memory: seq<byte>, c: nat, n: nat, x: Fips197.Block, d: nat)
    requires WellFormed(p) && c < |p.contexts| && |memory| == |p.memory| && n + 16 <= p.contexts[c].length
    requires d < |p.contexts| && d != c
    ensures Region(p, Splice(memory, p.contexts[c].location + n, x), d) == Region(p, memory, d)
  {
    assert Apart(p.contexts[c], p.contexts[d]) || Apart(p.contexts[d], p.contexts[c]);
  }

  lemma BlockExtendsRun(p: Plan, memory: seq<byte>, job: Job)
    requires WellFormed(p) && |memory| == |p.memory| && job.context < |p.contexts|
    requires job.done % 16 == 0 && job.done < p.contexts[job.context].length
    requires JobOk(p, job) && Region(p, memory, job.context) == Partly(p, job.context, job.done)
    ensures job.done + 16 <= p.contexts[job.context].length
    ensures JobOk(p, BlockJob(p, memory, job))
    ensures Region(p, BlockMemory(p, memory, job), job.context) == Partly(p, job.context, job.done + 16)
  {
    hide Partly, DecryptedBlock, Splice, Cbc.LastBlock, Cbc.Decrypt, Fips197.AddBlocks, Fips197.InvCipher;
    PartlyGrows(p, job.context, job.done);
    var c := p.contexts[job.context];
    var at := c.location + job.done;
    var x := DecryptedBlock(c, job.iv, memory[at..at + 16]);
    BlockOfRegion(memory, c.location, c.length, job.done, x);
    hide WellFormed;
  }

  lemma BlockLeavesOthers(p: Plan, memory: seq<byte>, job: Job, d: nat)
    requires WellFormed(p) && |memory| == |p.memory| && job.context < |p.contexts|
    requires job.done + 16 <= p.contexts[job.context].length
    requires d < |p.contexts| && d != job.context
    ensures Region(p, BlockMemory(p, memory, job), d) == Region(p, memory, d)
  {
    hide DecryptedBlock;
    var c := p.contexts[job.context];
    var at := c.location + job.done;
    OtherRegionAfterWrite(p, memory, job.context, job.done, DecryptedBlock(c, job.iv, memory[at..at + 16]), d);
  }

  lemma BlockLeavesUncovered(p: Plan, memory: seq<byte>, job: Job, m: nat)
    requires WellFormed(p) && |memory| == |p.memory| && job.context < |p.contexts|
    requires job.done + 16 <= p.contexts[job.context].length
    requires m < |memory| && Uncovered(p, m)
    ensures BlockMemory(p, memory, job)[m] == memory[m]
  {
    hide DecryptedBlock;
    assert !Inside(p.contexts[job.context], m);
  }

  lemma BlockShapes(p: Plan, memory: seq<byte>, jobs: seq<Job>, a: nat)
    requires WellFormed(p) && JobsShaped(p, jobs) && a < |jobs| && |memory| == |p.memory|
    requires jobs[a].done < p.contexts[jobs[a].context].length
    ensures jobs[a].done + 16 <= p.contexts[jobs[a].context].length
    ensures JobsShaped(p, jobs[a := BlockJob(p, memory, jobs[a])])
  {
    RoomForBlock(jobs[a].done, p.contexts[jobs[a].context].length);
    hide WellFormed;
  }

  lemma MemoryOkAfterBlock(p: Plan, memory: seq<byte>, jobs: seq<Job>, a: nat)
    requires WellFormed(p) && JobsShaped(p, jobs) && a < |jobs| && |memory| == |p.memory|
    requires JobsOk(p, jobs) && MemoryOk(p, memory, jobs)
    requires jobs[a].done + 16 <= p.contexts[jobs[a].context].length
    requires JobsShaped(p, jobs[a := BlockJob(p, memory, jobs[a])])
    ensures MemoryOk(p, BlockMemory(p, memory, jobs[a]), jobs[a := BlockJob(p, memory, jobs[a])])
  {
    hide Partly, Region, BlockMemory, JobOk;
    BlockExtendsRun(p, memory, jobs[a]);
    var j, next := BlockJob(p, memory, jobs[a]), BlockMemory(p, memory, jobs[a]);
    forall b | 0 <= b < |jobs| && b != a
      ensures Region(p, next, jobs[b].context) == Partly(p, jobs[b].context, jobs[b].done)
    {
      assert jobs[b].context != jobs[a].context;
      BlockLeavesOthers(p, memory, jobs[a], jobs[b].context);
    }
    forall d | 0 <= d < |p.contexts| && Unstarted(jobs[a := j], d) ensures Region(p, next, d) == p.Original(d) {
      SameUnstarted(jobs, a, j, d);
      BlockLeavesOthers(p, memory, jobs[a], d);
    }
    forall m | 0 <= m < |memory| && Uncovered(p, m) ensures next[m] == p.memory[m] {
      BlockLeavesUncovered(p, memory, jobs[a], m);
    }
  }

  // --- The step as a whole ---

  lemma ReportKeeps(p: Plan, s: State, a: nat)
    requires Inv(p, s) && a < |s.jobs| && s.jobs[a].phase.Loop?
    ensures Inv(p, s.(places := s.places[s.jobs[a].context := s.jobs[a].done],
                      jobs := s.jobs[a := s.jobs[a].(phase := Loop(true))]))
  {
    var j := s.jobs[a].(phase := Loop(true));
    var t := s.(places := s.places[j.context := j.done], jobs := s.jobs[a := j]);
    assert JobOk(p, s.jobs[a]);
    JobsOkAfterStep(p, s.jobs, a, j);
    MemoryOkSameDone(p, s.memory, s.jobs, a, j);
    PlacesOkAfterStep(p, s.places, s.jobs, a, j, j.done);
    FinishedStays(p, s.finished, s.jobs, t.jobs);
    StartedOkAfterStep(p, s.started, s.jobs, s.boot, a, j);
    assert s.places[j.context] <= j.done;
    hide WellFormed, JobOk, JobsShaped, JobsOk, MemoryOk, PlacesOk, FinishedOk, StartedOk, BootOk;
    BootOkStays(p, s, t);
  }

  lemma BlockKeeps(p: Plan, s: State, a: nat)
    requires Inv(p, s) && a < |s.jobs| && s.jobs[a].phase.Loop?
    requires s.jobs[a].done < p.contexts[s.jobs[a].context].length
    ensures s.jobs[a].done + 16 <= p.contexts[s.jobs[a].context].length
    ensures Inv(p, s.(memory := BlockMemory(p, s.memory, s.jobs[a]),
                      jobs := s.jobs[a := BlockJob(p, s.memory, s.jobs[a])]))
  {
    hide BlockMemory, JobOk, Region, Partly, Uncovered, Complete;
    assert s.places[s.jobs[a].context] <= s.jobs[a].done;
    BlockShapes(p, s.memory, s.jobs, a);
    MemoryOkAfterBlock(p, s.memory, s.jobs, a);
    BlockExtendsRun(p, s.memory, s.jobs[a]);
    var j := BlockJob(p, s.memory, s.jobs[a]);
    var t := s.(memory := BlockMemory(p, s.memory, s.jobs[a]), jobs := s.jobs[a := j]);
    JobsOkAfterStep(p, s.jobs, a, j);
    PlacesOkAfterStep(p, s.places, s.jobs, a, j, s.places[j.context]);
    assert s.places[j.context := s.places[j.context]] == s.places;
    FinishedStays(p, s.finished, s.jobs, t.jobs);
    StartedOkAfterStep(p, s.started, s.jobs, s.boot, a, j);
    hide WellFormed, JobOk, JobsShaped, JobsOk, MemoryOk, PlacesOk, FinishedOk, StartedOk, BootOk;
    BootOkStays(p, s, t);
  }

  lemma LastReportKeeps(p: Plan, s: State, a: nat)
    requires Inv(p, s) && a < |s.jobs| && s.jobs[a].done == p.contexts[s.jobs[a].context].length
    ensures var c := p.contexts[s.jobs[a].context];
      Inv(p, s.(places := if c.suppress then s.places else s.places[s.jobs[a].context := c.length],
                jobs := s.jobs[a := s.jobs[a].(phase := Finishing)]))
  {
    var j := s.jobs[a].(phase := Finishing);
    var c := p.contexts[j.context];
    var place := if c.suppress then s.places[j.context] else c.length;
    var t := s.(places := if c.suppress then s.places else s.places[j.context := c.length], jobs := s.jobs[a := j]);
    assert JobOk(p, s.jobs[a]);
    JobsOkAfterStep(p, s.jobs, a, j);
    MemoryOkSameDone(p, s.memory, s.jobs, a, j);
    assert s.places[j.context] <= j.done;
    PlacesOkAfterStep(p, s.places, s.jobs, a, j, place);
    assert s.places[j.context := s.places[j.context]] == s.places;
    FinishedStays(p, s.finished, s.jobs, t.jobs);
    StartedOkAfterStep(p, s.started, s.jobs, s.boot, a, j);
    hide WellFormed, JobOk, JobsShaped, JobsOk, MemoryOk, PlacesOk, FinishedOk, StartedOk, BootOk;
    BootOkStays(p, s, t);
  }

  // Marking a thread whose worker has been through all its blocks.
  lemma FinishKeeps(p: Plan, s: State, a: nat)
    requires Inv(p, s) && a < |s.jobs| && !s.jobs[a].phase.Loop?
    ensures Inv(p, s.(finished := s.finished[p.contexts[s.jobs[a].context].slot := true],
                      jobs := s.jobs[a := s.jobs[a].(phase := Ended)]))
  {
    var j := s.jobs[a].(phase := Ended);
    var i := p.contexts[j.context].slot;
    var t := s.(finished := s.finished[i := true], jobs := s.jobs[a := j]);
    assert JobOk(p, s.jobs[a]);
    JobsOkAfterStep(p, s.jobs, a, j);
    MemoryOkSameDone(p, s.memory, s.jobs, a, j);
    assert s.places[j.context] <= j.done;
    PlacesOkAfterStep(p, s.places, s.jobs, a, j, s.places[j.context]);
    assert s.places[j.context := s.places[j.context]] == s.places;
    FinishedStays(p, s.finished, s.jobs, t.jobs);
    MarkedIsComplete(p, s.finished, t.jobs, a, i);
    StartedOkAfterStep(p, s.started, s.jobs, s.boot, a, j);
    hide WellFormed, JobOk, JobsShaped, JobsOk, MemoryOk, PlacesOk, FinishedOk, StartedOk, BootOk;
    BootOkStays(p, s, t);
  }

  lemma MarkedIsComplete(p: Plan, finished: seq<bool>, jobs: seq<Job>, a: nat, i: nat)
    requires WellFormed(p) && JobsShaped(p, jobs) && |finished| == |p.holder| && FinishedOk(p, finished, jobs)
    requires a < |jobs| && i == p.contexts[jobs[a].context].slot && jobs[a].done == p.contexts[jobs[a].context].length
    ensures FinishedOk(p, finished[i := true], jobs)
  {
    assert p.holder[i] == Some(jobs[a].context);
    assert Complete(p, jobs, jobs[a].context);
  }

  // What a step does to a run: report, decrypt a block, leave the loop, or end.
  ghost predicate Moves(job: Job, j: Job) {
    && j.context == job.context
    && match job.phase
       case Loop(reported) =>
         || (j.phase == Loop(true) && !reported && j.done == job.done)
         || (j.phase == Loop(false) && j.done == job.done + 16)
         || (j.phase == Finishing && j.done == job.done)
       case Finishing => j.phase == Ended && j.done == job.done
       case Ended => j == job
  }

  lemma WorkerStepMoves(p: Plan, s: State, a: nat)
    requires WellFormed(p) && Shaped(p, s) && a < |s.jobs|
    ensures var t := WorkerStep(p, s, a);
      && t.boot == s.boot && t.started == s.started
      && |t.jobs| == |s.jobs| && t.jobs == s.jobs[a := t.jobs[a]] && Moves(s.jobs[a], t.jobs[a])
      && t.finished ==
           if s.jobs[a].phase.Finishing? then s.finished[p.contexts[s.jobs[a].context].slot := true] else s.finished
  {
    hide WellFormed, BlockMemory;
  }

  /** Every step of a worker keeps the invariant. */
  lemma WorkerStepKeeps(p: Plan, s: State, a: nat)
    requires Inv(p, s) && a < |s.jobs|
    ensures Inv(p, WorkerStep(p, s, a))
  {
    hide JobsOk, MemoryOk, PlacesOk, FinishedOk, StartedOk, BootOk, BlockMemory, BlockJob;
    var job := s.jobs[a];
    var c := p.contexts[job.context];
    match job.phase
    case Loop(reported) =>
      if job.done < c.length {
        if !reported && !c.suppress && job.done % AesCbc.REPORT_INTERVAL == 0 {
          ReportKeeps(p, s, a);
        } else {
          BlockKeeps(p, s, a);
        }
      } else {
        LastReportKeeps(p, s, a);
      }
    case Finishing => FinishKeeps(p, s, a);
    case Ended =>
  }

  lemma NotifyStepKeeps(p: Plan, s: State, a: nat)
    requires Inv(p, s) && a < |s.jobs|
    ensures Inv(p, NotifyStep(p, s, a))
  {
    if s.jobs[a].phase.Ended? {
      FinishKeeps(p, s, a);
      assert s.jobs[a := s.jobs[a].(phase := Ended)] == s.jobs;
    }
  }
}
