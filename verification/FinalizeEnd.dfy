/** How a finalize leaves the recorded state and the report, whichever way its work went. */
module FinalizeEnd {
  import opened Options
  import opened InstallerState
  import ResetFiles

  const STEP_ID := "gnuboard7-finalize"
  const FINALIZED := "gnuboard7-finalized"

  datatype Check = Check(name: string, status: string, message: string)

  /** The parts of the stored report a finalize writes. */
  datatype Report = Report(phase: Option<string>, message: Option<string>, checks: Option<seq<Check>>,
                           services: Option<seq<string>>, problem: Option<string>)

  /** What the work itself came to. */
  datatype Work = Passed(message: string, checks: seq<Check>, services: seq<string>)
    | Broke(message: string, error: string)

  /** `merge_finalize_report`. */
  function Merge(phase: string, message: string, checks: seq<Check>, services: seq<string>,
                 problem: Option<string>): Report {
    Report(Some(phase), Some(message), Some(checks), Some(services), problem)
  }

  /** The stored report already tells of a failure, with checks. */
  predicate TellsOfFailure(r: Report) {
    r.phase == Some("fail") && r.checks.Some? && r.checks.value != []
  }

  function AddOnce(names: seq<string>, name: string): seq<string> {
    if name in names then names else names + [name]
  }

  class Finalizer {
    var state: State
    var report: Report

    constructor (state: State, report: Report)
      ensures this.state == state && this.report == report
    {
      this.state, this.report := state, report;
    }

    /** `run_with_probe_and_paths` around the work, with every write succeeding. */
    method Run(work: Work)
      modifies this
      ensures state == StateAfter(old(state), work) && report == ReportAfter(old(report), work)
    {
      state := Apply(state, Begin(STEP_ID));
      match work
      case Passed(message, checks, services) =>
        state := Apply(state, Complete(STEP_ID));
        if FINALIZED !in state.completedSteps {
          state := state.(completedSteps := state.completedSteps + [FINALIZED]);
        }
        report := Merge("pass", message, checks, services, None);
      case Broke(message, error) =>
        state := Apply(state, Fail(STEP_ID, error, false));
        if TellsOfFailure(report) { return; }
        report := Merge("fail", message, [Check(STEP_ID, "fail", error)], [], Some(error));
    }
  }

  function StateAfter(s: State, work: Work): State {
    var begun := Apply(s, Begin(STEP_ID));
    match work
    case Passed(_, _, _) =>
      var done := Apply(begun, Complete(STEP_ID));
      done.(completedSteps := AddOnce(done.completedSteps, FINALIZED))
    case Broke(_, error) => Apply(begun, Fail(STEP_ID, error, false))
  }

  function ReportAfter(r: Report, work: Work): Report {
    if work.Broke? && TellsOfFailure(r) then r else OwnReport(work)
  }

  /** What a finalize writes when nothing hinders it. */
  function OwnReport(work: Work): Report {
    match work
    case Passed(message, checks, services) => Merge("pass", message, checks, services, None)
    case Broke(message, error) => Merge("fail", message, [Check(STEP_ID, "fail", error)], [], Some(error))
  }

  /* ---- one finalize ---- */

  lemma OwnStepAfter(steps: seq<Step>, c: Call)
    requires !c.SetPhase?
    ensures Lookup(TouchIn(steps, c.id, c), c.id) == Touch(Lookup(steps, c.id), c)
  {
    var i, after := Find(steps, c.id), TouchIn(steps, c.id, c);
    assert forall j :: 0 <= j < i ==> after[j].id != c.id;
    if i < |after| { FindFirst(after, c.id, i); }
  }

  lemma FindFirst(steps: seq<Step>, id: string, i: nat)
    requires i < |steps| && steps[i].id == id && forall j :: 0 <= j < i ==> steps[j].id != id
    ensures Find(steps, id) == i
  {}

  /** On any stored state and report, a finalize that passes ends with its step completed and none
      under way, marked as finalized, and with a passing report of its own checks. */
  lemma PassingFinalizeEnds(s: State, r: Report, message: string, checks: seq<Check>, services: seq<string>)
    ensures var (s', r') := (StateAfter(s, Passed(message, checks, services)),
                             ReportAfter(r, Passed(message, checks, services)));
            && Lookup(s'.steps, STEP_ID).Some? && Lookup(s'.steps, STEP_ID).value.status == COMPLETED
            && s'.currentStep == None && FINALIZED in s'.completedSteps
            && r'.phase == Some("pass") && r'.checks == Some(checks) && r'.problem == None
  {
    var begun := Apply(s, Begin(STEP_ID));
    OwnStepAfter(s.steps, Begin(STEP_ID));
    OwnStepAfter(begun.steps, Complete(STEP_ID));
  }

  /** One that breaks ends with its step failed by the error, and a report of a failure with checks. */
  lemma BrokenFinalizeEnds(s: State, r: Report, message: string, error: string)
    ensures var (s', r') := (StateAfter(s, Broke(message, error)), ReportAfter(r, Broke(message, error)));
            && Lookup(s'.steps, STEP_ID).Some? && Lookup(s'.steps, STEP_ID).value.status == FAILED
            && Lookup(s'.steps, STEP_ID).value.lastError == Some(error)
            && s'.currentStep == Some(STEP_ID)
            && TellsOfFailure(r')
  {
    var begun := Apply(s, Begin(STEP_ID));
    OwnStepAfter(s.steps, Begin(STEP_ID));
    OwnStepAfter(begun.steps, Fail(STEP_ID, error, false));
  }

  /* ---- any number of finalizes ---- */

  function StateAfterAll(s: State, works: seq<Work>): State {
    if works == [] then s else StateAfter(StateAfterAll(s, works[..|works| - 1]), works[|works| - 1])
  }

  function ReportAfterAll(r: Report, works: seq<Work>): Report {
    if works == [] then r else ReportAfter(ReportAfterAll(r, works[..|works| - 1]), works[|works| - 1])
  }

  /** The finalize at `i` opened the streak of failures that lasts to the end. */
  ghost predicate OpensStreak(works: seq<Work>, i: nat) {
    && i < |works| && (i == 0 || works[i - 1].Passed?)
    && forall j :: i <= j < |works| ==> works[j].Broke?
  }

  lemma StreakGoesOn(works: seq<Work>, n: nat, i: nat)
    requires n + 1 == |works| && OpensStreak(works[..n], i) && works[n].Broke?
    ensures OpensStreak(works, i) && works[..n][i] == works[i]
  {
    assert forall j :: 0 <= j < n ==> works[..n][j] == works[j];
  }

  lemma ReportStep(r: Report, work: Work)
    ensures TellsOfFailure(ReportAfter(r, work)) <==> work.Broke?
    ensures !TellsOfFailure(r) || work.Passed? ==> ReportAfter(r, work) == OwnReport(work)
    ensures TellsOfFailure(r) && work.Broke? ==> ReportAfter(r, work) == r
  {}

  /** Over any number of finalizes the report is that of the last one if it passed, and otherwise
      that of the first failure since the last pass, not of the last failure. */
  lemma {:induction false} ReportTellsOfFirstFailure(r: Report, works: seq<Work>)
    requires !TellsOfFailure(r) && works != []
    ensures TellsOfFailure(ReportAfterAll(r, works)) <==> works[|works| - 1].Broke?
    ensures works[|works| - 1].Passed? ==> ReportAfterAll(r, works) == OwnReport(works[|works| - 1])
    ensures works[|works| - 1].Broke? ==>
            exists i: nat :: OpensStreak(works, i) && ReportAfterAll(r, works) == OwnReport(works[i])
  {
    var n := |works| - 1;
    ReportStep(ReportAfterAll(r, works[..n]), works[n]);
    if n > 0 { ReportTellsOfFirstFailure(r, works[..n]); }
    if n > 0 && works[n].Broke? && works[n - 1].Broke? {
      var i: nat :| OpensStreak(works[..n], i) && ReportAfterAll(r, works[..n]) == OwnReport(works[..n][i]);
      StreakGoesOn(works, n, i);
    } else if works[n].Broke? {
      assert OpensStreak(works, n);
    }
  }

  lemma StepKeepsRest(s: State, work: Work, id: string)
    requires UniqueIds(s.steps) && id != STEP_ID
    ensures var s' := StateAfter(s, work);
            && UniqueIds(s'.steps) && Lookup(s'.steps, id) == Lookup(s.steps, id)
            && s'.phase == s.phase && s.completedSteps <= s'.completedSteps
            && (ResetFiles.NoDuplicates(s.completedSteps) ==> ResetFiles.NoDuplicates(s'.completedSteps))
  {
    var begun := Apply(s, Begin(STEP_ID));
    TouchIsLocal(s.steps, Begin(STEP_ID), id);
    TouchIsLocal(begun.steps, if work.Passed? then Complete(STEP_ID) else Fail(STEP_ID, work.error, false), id);
  }

  /** However many finalizes run and however each goes, the installer's phase and every other step
      stay as they were, completed steps are only added and never twice, and the finalize step tells
      how the last one went. */
  lemma {:induction false} RepeatedFinalizes(s: State, works: seq<Work>, id: string)
    requires UniqueIds(s.steps) && id != STEP_ID
    ensures var s' := StateAfterAll(s, works);
            && UniqueIds(s'.steps) && Lookup(s'.steps, id) == Lookup(s.steps, id)
            && s'.phase == s.phase && s.completedSteps <= s'.completedSteps
            && (ResetFiles.NoDuplicates(s.completedSteps) ==> ResetFiles.NoDuplicates(s'.completedSteps))
            && (works != [] ==> Lookup(s'.steps, STEP_ID).Some? &&
                                Lookup(s'.steps, STEP_ID).value.status ==
                                if works[|works| - 1].Passed? then COMPLETED else FAILED)
  {
    if works != [] {
      var n := |works| - 1;
      var before := StateAfterAll(s, works[..n]);
      RepeatedFinalizes(s, works[..n], id);
      StepKeepsRest(before, works[n], id);
      match works[n]
      case Passed(message, checks, services) =>
        PassingFinalizeEnds(before, Merge("", "", [], [], None), message, checks, services);
      case Broke(message, error) => BrokenFinalizeEnds(before, Merge("", "", [], [], None), message, error);
    }
  }

  /** A completed installation never becomes resumable by finalizing it. */
  lemma {:induction false} CompletedIsNeverRetried(s: State, works: seq<Work>)
    requires s.phase == PhaseName(Completed)
    ensures !CanRetry(StateAfterAll(s, works))
  {
    PhaseStays(s, works);
  }

  lemma {:induction false} PhaseStays(s: State, works: seq<Work>)
    ensures StateAfterAll(s, works).phase == s.phase
  {
    if works != [] { PhaseStays(s, works[..|works| - 1]); }
  }
}
