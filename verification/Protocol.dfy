/**
 * Parallel decryption: the boot processor hands work orders to the other processors and spins
 * until they are done. Each step of the boot processor reads or writes at most one place that a
 * worker may touch at the same time, and so does every block, progress report and flag of a
 * worker; steps interleave in any way. Where the boot processor tests `started` together with
 * `finished`, that is one such place, since nobody but itself writes `started`.
 */
module Protocol {
  import opened Octets
  import opened Options
  import Fips197
  import AesCbc

  // --------------------------------------------------------------------------
  // What is fixed once all work has been queued
  // --------------------------------------------------------------------------

  /** A thread context: the order, the key and the IV as they were copied when it was queued. */
  datatype Context = Context(slot: nat, location: nat, length: nat, suppress: bool, key: Fips197.Key, iv: Fips197.Block)

  /** The first contents of memory, the contexts, the context of each slot, and the bytes queued. */
  datatype Plan = Plan(memory: seq<byte>, contexts: seq<Context>, holder: seq<Option<nat>>, total: nat) {

    function Original(c: nat): seq<byte>
      requires c < |contexts| && contexts[c].location + contexts[c].length <= |memory|
    {
      memory[contexts[c].location..contexts[c].location + contexts[c].length]
    }
  }

  predicate Inside(c: Context, m: nat) {
    c.location <= m < c.location + c.length
  }

  predicate Apart(c: Context, d: Context) {
    c.location + c.length <= d.location || d.location + d.length <= c.location
  }

  /** The lengths of the contexts held by the slots below `n`. */
  function SlotSum(p: Plan, n: nat): nat
    requires n <= |p.holder|
    requires forall i :: 0 <= i < |p.holder| && p.holder[i].Some? ==> p.holder[i].value < |p.contexts|
  {
    if n == 0 then 0
    else SlotSum(p, n - 1) + (if p.holder[n - 1].Some? then p.contexts[p.holder[n - 1].value].length else 0)
  }

  /** The slot of the context still points to it; a context queued later for the slot replaces it. */
  predicate Held(p: Plan, c: nat) {
    c < |p.contexts| && p.contexts[c].slot < |p.holder| && p.holder[p.contexts[c].slot] == Some(c)
  }

  ghost predicate WellFormed(p: Plan) {
    && (forall i :: 0 <= i < |p.holder| && p.holder[i].Some? ==>
          p.holder[i].value < |p.contexts| && p.contexts[p.holder[i].value].slot == i)
    && (forall c :: 0 <= c < |p.contexts| ==>
          && p.contexts[c].slot < |p.holder|
          && p.contexts[c].length > 0 && p.contexts[c].length % 16 == 0
          && p.contexts[c].location + p.contexts[c].length <= |p.memory|)
    && (forall c, d :: 0 <= c < d < |p.contexts| ==> Apart(p.contexts[c], p.contexts[d]))
    && p.total >= SlotSum(p, |p.holder|)
  }

  // --------------------------------------------------------------------------
  // What changes while the boot processor spins
  // --------------------------------------------------------------------------

  // A worker is in the block loop (having reported its place for this block or not), about to
  // finish its thread, or back in the firmware.
  datatype Phase = Loop(reported: bool) | Finishing | Ended

  /** One run of the worker procedure on another processor. */
  datatype Job = Job(context: nat, phase: Phase, done: nat, iv: Fips197.Block)

  datatype Where = Scan | Start | Offer | Dispatched | ReadFinished | ReadPlace | Decide | Returned

  datatype Boot = Boot(at: Where, i: nat, completed: bool, progress: nat)

  datatype State = State(memory: seq<byte>, places: seq<nat>, started: seq<bool>, finished: seq<bool>,
                         jobs: seq<Job>, boot: Boot)

  ghost predicate JobsShaped(p: Plan, jobs: seq<Job>) {
    forall a :: 0 <= a < |jobs| ==>
      Held(p, jobs[a].context) && jobs[a].done <= p.contexts[jobs[a].context].length && jobs[a].done % 16 == 0
  }

  ghost predicate Shaped(p: Plan, s: State) {
    && |s.memory| == |p.memory| && |s.places| == |p.contexts|
    && |s.started| == |s.finished| == |p.holder|
    && JobsShaped(p, s.jobs)
    && s.boot.i <= |p.holder|
    && (s.boot.at in {Start, Offer, Dispatched, ReadFinished, ReadPlace} ==>
          s.boot.i < |p.holder| && p.holder[s.boot.i].Some?)
  }

  /** Threads as `UefiSpin` finds them: queued, none started. */
  function Initial(p: Plan): State {
    State(p.memory, seq(|p.contexts|, _ => 0), seq(|p.holder|, _ => false), seq(|p.holder|, _ => false), [],
          Boot(Scan, 0, true, 0))
  }

  // `accepted` says whether the firmware finds a processor for the thread that is offered.
  function BootStep(p: Plan, s: State, accepted: bool): State
    requires WellFormed(p) && Shaped(p, s)
  {
    var b := s.boot;
    match b.at
    case Scan =>
      if b.i == |p.holder| then s.(boot := b.(at := Decide))
      else if p.holder[b.i].None? then s.(boot := b.(i := b.i + 1))
      else if !s.started[b.i] && !s.finished[b.i] then s.(boot := b.(at := Start))
      else s.(boot := b.(at := ReadFinished))
    case Start =>
      s.(boot := b.(at := if s.started[b.i] || s.finished[b.i] then ReadFinished else Offer))
    case Offer =>
      var c := p.holder[b.i].value;
      if accepted then
        s.(jobs := s.jobs + [Job(c, Loop(false), 0, p.contexts[c].iv)], boot := b.(at := Dispatched))
      else
        s.(boot := b.(at := ReadFinished))
    case Dispatched =>
      s.(started := s.started[b.i := true], boot := b.(at := ReadFinished))
    case ReadFinished =>
      s.(boot := b.(at := ReadPlace, completed := b.completed && s.finished[b.i]))
    case ReadPlace =>
      s.(boot := b.(at := Scan, i := b.i + 1, progress := b.progress + s.places[p.holder[b.i].value]))
    case Decide =>
      s.(boot := if !b.completed && b.progress < p.total then Boot(Scan, 0, true, 0) else b.(at := Returned))
    case Returned => s
  }

  function DecryptedBlock(c: Context, iv: Fips197.Block, block: Fips197.Block): Fips197.Block {
    Fips197.AddBlocks(Fips197.InvCipher(Fips197.ExpandedKey(c.key), block), iv)
  }

  // The run after a block, and the memory after it.
  function BlockJob(p: Plan, memory: seq<byte>, job: Job): Job
    requires WellFormed(p) && |memory| == |p.memory| && job.context < |p.contexts|
    requires job.done + 16 <= p.contexts[job.context].length
  {
    var at := p.contexts[job.context].location + job.done;
    Job(job.context, Loop(false), job.done + 16, memory[at..at + 16])
  }

  function BlockMemory(p: Plan, memory: seq<byte>, job: Job): (r: seq<byte>)
    requires WellFormed(p) && |memory| == |p.memory| && job.context < |p.contexts|
    requires job.done + 16 <= p.contexts[job.context].length
    ensures |r| == |memory|
  {
    var c := p.contexts[job.context];
    var at := c.location + job.done;
    Splice(memory, at, DecryptedBlock(c, job.iv, memory[at..at + 16]))
  }

  lemma RoomForBlock(done: nat, length: nat)
    requires done % 16 == 0 && length % 16 == 0 && done < length
    ensures done + 16 <= length
  {}

  /** The next step of a worker: a report, a block, the last report, or the end of its thread. */
  function WorkerStep(p: Plan, s: State, a: nat): State
    requires WellFormed(p) && Shaped(p, s) && a < |s.jobs|
  {
    var job := s.jobs[a];
    var c := p.contexts[job.context];
    match job.phase
    case Loop(reported) =>
      if job.done < c.length then
        if !reported && !c.suppress && job.done % AesCbc.REPORT_INTERVAL == 0 then
          s.(places := s.places[job.context := job.done], jobs := s.jobs[a := job.(phase := Loop(true))])
        else
          RoomForBlock(job.done, c.length);
          s.(memory := BlockMemory(p, s.memory, job), jobs := s.jobs[a := BlockJob(p, s.memory, job)])
      else
        s.(places := if c.suppress then s.places else s.places[job.context := c.length],
           jobs := s.jobs[a := job.(phase := Finishing)])
    case Finishing =>
      s.(finished := s.finished[c.slot := true], jobs := s.jobs[a := job.(phase := Ended)])
    case Ended => s
  }

  /** The firmware's completion event: the thread is finished once more, after its worker has ended. */
  function NotifyStep(p: Plan, s: State, a: nat): State
    requires WellFormed(p) && Shaped(p, s) && a < |s.jobs|
  {
    if s.jobs[a].phase.Ended? then
      s.(finished := s.finished[p.contexts[s.jobs[a].context].slot := true])
    else s
  }
}
