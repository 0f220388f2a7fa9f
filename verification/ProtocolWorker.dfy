/**
 * A worker's steps taken one after the other do what the decryption loop does in one call: the
 * same bytes, and the same progress reports in the same order.
 */
module ProtocolWorker {
  import opened Protocol
  import opened ProtocolSafety
  import opened ProtocolRuns
  import opened ProtocolLiveness
  import AesCbc
  import Cbc

  // What a worker's step tells the progress hook.
  function Report(p: Plan, s: State, a: nat): seq<nat>
    requires Inv(p, s) && a < |s.jobs|
  {
    WorkerStepKeeps(p, s, a);
    WorkerStepMoves(p, s, a);
    var t := WorkerStep(p, s, a);
    var c := p.contexts[s.jobs[a].context];
    if s.jobs[a].phase.Loop? && (t.jobs[a].phase == Loop(true) || (t.jobs[a].phase == Finishing && !c.suppress))
    then [t.places[s.jobs[a].context]] else []
  }

  /** All that a worker reports from `s` on. */
  function Reported(p: Plan, s: State, a: nat): seq<nat>
    requires Inv(p, s) && a < |s.jobs|
    decreases StepsLeft(p, s.jobs[a])
  {
    if s.jobs[a].phase.Ended? then [] else
    WorkerStepKeeps(p, s, a);
    WorkerStepShrinks(p, s, a);
    Report(p, s, a) + Reported(p, WorkerStep(p, s, a), a)
  }

  /** The state when the worker has ended and nobody else has moved. */
  function EndedAlone(p: Plan, s: State, a: nat): (t: State)
    requires Inv(p, s) && a < |s.jobs|
    ensures Inv(p, t) && a < |t.jobs| && t.jobs[a].phase.Ended? && t.jobs[a].context == s.jobs[a].context
    decreases StepsLeft(p, s.jobs[a])
  {
    if s.jobs[a].phase.Ended? then s else
    WorkerStepKeeps(p, s, a);
    WorkerStepShrinks(p, s, a);
    EndedAlone(p, WorkerStep(p, s, a), a)
  }

  // The three steps of the loop: a report, a block, and the report at the end.
  lemma ReportStep(p: Plan, s: State, a: nat)
    requires Inv(p, s) && a < |s.jobs| && s.jobs[a].phase == Loop(false)
    requires var c := p.contexts[s.jobs[a].context];
      s.jobs[a].done < c.length && !c.suppress && s.jobs[a].done % AesCbc.REPORT_INTERVAL == 0
    ensures var t := WorkerStep(p, s, a);
      Inv(p, t) && |t.jobs| == |s.jobs| && t.jobs[a] == s.jobs[a].(phase := Loop(true))
    ensures Report(p, s, a) == [s.jobs[a].done]
  {
    hide Inv, WellFormed;
    InvIsShaped(p, s);
    WorkerStepKeeps(p, s, a);
  }

  lemma BlockStep(p: Plan, s: State, a: nat)
    requires Inv(p, s) && a < |s.jobs| && s.jobs[a].phase.Loop?
    requires var c := p.contexts[s.jobs[a].context];
      && s.jobs[a].done < c.length
      && (s.jobs[a].phase == Loop(true) || c.suppress || s.jobs[a].done % AesCbc.REPORT_INTERVAL != 0)
    ensures var t := WorkerStep(p, s, a);
      && Inv(p, t) && |t.jobs| == |s.jobs| && t.jobs[a].context == s.jobs[a].context
      && t.jobs[a].phase == Loop(false) && t.jobs[a].done == s.jobs[a].done + 16
    ensures Report(p, s, a) == []
  {
    hide Inv, WellFormed, BlockMemory;
    InvIsShaped(p, s);
    WorkerStepKeeps(p, s, a);
  }

  lemma EndStep(p: Plan, s: State, a: nat)
    requires Inv(p, s) && a < |s.jobs| && s.jobs[a].phase.Loop?
    requires s.jobs[a].done == p.contexts[s.jobs[a].context].length
    ensures var c := p.contexts[s.jobs[a].context];
      Reported(p, s, a) == if c.suppress then [] else [c.length]
  {
    hide Inv, WellFormed, BlockMemory;
    InvIsShaped(p, s);
    WorkerStepKeeps(p, s, a);
    var t := WorkerStep(p, s, a);
    WorkerStepKeeps(p, t, a);
    var u := WorkerStep(p, t, a);
    assert t.jobs[a].phase == Finishing && u.jobs[a].phase == Ended;
    assert Reported(p, u, a) == [] && Reported(p, t, a) == [];
  }

  lemma InvDone(p: Plan, s: State, a: nat)
    requires Inv(p, s) && a < |s.jobs|
    ensures s.jobs[a].context < |p.contexts| && s.jobs[a].done % 16 == 0
    ensures s.jobs[a].done <= p.contexts[s.jobs[a].context].length
  {}

  lemma ReportedUnfolds(p: Plan, s: State, a: nat)
    requires Inv(p, s) && a < |s.jobs| && !s.jobs[a].phase.Ended?
    ensures var t := WorkerStep(p, s, a);
      && WellFormed(p) && Shaped(p, s) && Inv(p, t) && |t.jobs| == |s.jobs|
      && Reported(p, s, a) == Report(p, s, a) + Reported(p, t, a)
  {
    hide Inv, WellFormed, WorkerStep;
    InvIsShaped(p, s);
    WorkerStepKeeps(p, s, a);
    WorkerStepMoves(p, s, a);
  }

  // What has been reported before offset `done`, and what is still to come, make the whole list.
  lemma {:induction false} ReportedFrom(p: Plan, s: State, a: nat)
    requires Inv(p, s) && a < |s.jobs| && s.jobs[a].phase == Loop(false)
    ensures var c := p.contexts[s.jobs[a].context];
      if c.suppress then Reported(p, s, a) == []
      else AesCbc.ReportsBefore(s.jobs[a].done) + Reported(p, s, a) == AesCbc.Reports(c.length)
    decreases p.contexts[s.jobs[a].context].length - s.jobs[a].done
  {
    hide Inv, WellFormed, WorkerStep, Report, Reported, AesCbc.ReportsBefore;
    InvDone(p, s, a);
    InvIsShaped(p, s);
    var c, i := p.contexts[s.jobs[a].context], s.jobs[a].done;
    if i == c.length {
      EndStep(p, s, a);
    } else {
      AesCbc.ReportsOverBlock(i, 16);
      ReportedUnfolds(p, s, a);
      var t := WorkerStep(p, s, a);
      if !c.suppress && i % AesCbc.REPORT_INTERVAL == 0 {
        ReportStep(p, s, a);
        ReportedUnfolds(p, t, a);
        BlockStep(p, t, a);
        var u := WorkerStep(p, t, a);
        InvDone(p, u, a);
        ReportedFrom(p, u, a);
        assert AesCbc.ReportsBefore(i) + ([i] + ([] + Reported(p, u, a)))
            == (AesCbc.ReportsBefore(i) + [i]) + Reported(p, u, a);
      } else {
        BlockStep(p, s, a);
        InvDone(p, t, a);
        ReportedFrom(p, t, a);
        assert [] + Reported(p, t, a) == Reported(p, t, a);
      }
    }
  }

  lemma FreshRegion(p: Plan, s: State, a: nat)
    requires Inv(p, s) && a < |s.jobs| && s.jobs[a].done == 0
    ensures Region(p, s.memory, s.jobs[a].context) == p.Original(s.jobs[a].context)
  {
    NothingDecrypted(p, s.jobs[a].context);
    hide Partly, Region;
  }

  lemma EndedRegion(p: Plan, s: State, a: nat)
    requires Inv(p, s) && a < |s.jobs| && s.jobs[a].phase.Ended?
    ensures Region(p, s.memory, s.jobs[a].context) == Decrypted(p, s.jobs[a].context)
  {
    PartlyEnds(p, s.jobs[a].context);
    assert JobOk(p, s.jobs[a]);
    hide Partly, Region, Decrypted;
  }

  /** A worker that has just been started decrypts and reports as one call of the decryption loop does. */
  lemma WorkerActsAsOneCall(p: Plan, s: State, a: nat)
    requires Inv(p, s) && a < |s.jobs| && s.jobs[a].phase == Loop(false) && s.jobs[a].done == 0
    ensures var c, t := p.contexts[s.jobs[a].context], EndedAlone(p, s, a);
      && Region(p, t.memory, s.jobs[a].context)
         == Cbc.Decrypt(KeySchedule(c), c.iv, Region(p, s.memory, s.jobs[a].context))
      && Reported(p, s, a) == if c.suppress then [] else AesCbc.Reports(c.length)
  {
    hide Inv, EndedAlone, Reported, Region, KeySchedule, AesCbc.Reports;
    InvDone(p, s, a);
    InvIsShaped(p, s);
    FreshRegion(p, s, a);
    EndedRegion(p, EndedAlone(p, s, a), a);
    ReportedFrom(p, s, a);
    assert [] + Reported(p, s, a) == Reported(p, s, a);
  }
}
