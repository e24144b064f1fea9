/** How a recorded state is offered for resumption. */
module Recovery {
  import opened InstallerState
  import opened Options

  datatype ReadState = Readable(state: State) | Unreadable(error: string)

  datatype Resume = Resume(canResume: bool, canRetryStep: bool, failedStep: Option<string>,
                           restoreStatus: Option<string>)

  /** The id of the last failed step. */
  function LastFailed(steps: seq<Step>): Option<string> {
    if steps == [] then None
    else if steps[|steps| - 1].status == FAILED then Some(steps[|steps| - 1].id)
    else LastFailed(steps[..|steps| - 1])
  }

  function RestoreStatusOf(steps: seq<Step>, id: string): Option<string> {
    match Lookup(steps, id)
    case None => None
    case Some(step) => step.restoreStatus
  }

  /** `classify_resume_state`. */
  function Classify(r: ReadState): Resume {
    match r
    case Unreadable(_) => Resume(false, false, None, None)
    case Readable(s) =>
      if s.phase == PhaseName(Completed) then Resume(false, false, None, None)
      else
        var failed := if s.currentStep.Some? then s.currentStep else LastFailed(s.steps);
        Resume(true, failed.Some?, failed, if failed.Some? then RestoreStatusOf(s.steps, failed.value) else None)
  }

  function RecommendedAction(canResume: bool, canRollback: bool, canReset: bool): string {
    if canResume then "resume" else if canRollback then "rollback" else if canReset then "reset" else "manual"
  }

  lemma {:induction false} LastFailedMeans(steps: seq<Step>)
    ensures LastFailed(steps).None? <==> forall i :: 0 <= i < |steps| ==> steps[i].status != FAILED
    ensures LastFailed(steps).Some? ==>
              exists i :: 0 <= i < |steps| && steps[i].id == LastFailed(steps).value && steps[i].status == FAILED &&
                          forall j :: i < j < |steps| ==> steps[j].status != FAILED
  {
    if steps != [] && steps[|steps| - 1].status != FAILED {
      var n := |steps| - 1;
      LastFailedMeans(steps[..n]);
      if LastFailed(steps).Some? {
        var i :| 0 <= i < n && steps[..n][i].id == LastFailed(steps).value && steps[..n][i].status == FAILED &&
                 forall j :: i < j < n ==> steps[..n][j].status != FAILED;
        assert forall j :: i < j < n ==> steps[j] == steps[..n][j];
        assert steps[i].id == LastFailed(steps).value && steps[i].status == FAILED;
      }
      assert forall i :: 0 <= i < n ==> steps[..n][i] == steps[i];
    }
  }

  /** The two separately written deciders agree on every state, reachable or not. */
  lemma DecidersAgree(s: State)
    ensures Classify(Readable(s)).canRetryStep == CanRetry(s)
    ensures Classify(Readable(s)).canResume <==> s.phase != PhaseName(Completed)
  {
    LastFailedMeans(s.steps);
  }

  /** In reachable states the step offered for retry is recorded, the restore status shown is its
      own, and that status is shown exactly when the step has failed; a step that was only
      interrupted while running is offered without one. */
  lemma OfferedStepIsRecorded(installId: string, domain: string, calls: seq<Call>)
    ensures var s := Run(NewState(installId, domain), calls);
            var r := Classify(Readable(s));
            r.failedStep.Some? ==>
              var at := Find(s.steps, r.failedStep.value);
              && at < |s.steps| && s.steps[at].status in {RUNNING, FAILED}
              && r.restoreStatus == s.steps[at].restoreStatus
              && (r.restoreStatus.Some? <==> s.steps[at].status == FAILED)
  {
    var s := Run(NewState(installId, domain), calls);
    ReachableStatesAreConsistent(installId, domain, calls);
    LastFailedMeans(s.steps);
    var r := Classify(Readable(s));
    if r.failedStep.Some? && s.currentStep.None? {
      var i :| 0 <= i < |s.steps| && s.steps[i].id == r.failedStep.value && s.steps[i].status == FAILED;
      FindUnique(s.steps, s.steps[i].id, i);
    }
  }

  lemma FindFinds(steps: seq<Step>, id: string, i: nat)
    requires i < |steps| && steps[i].id == id
    ensures Find(steps, id) <= i
  {}

  /** In whatever state is read from disk, an offered step is recorded exactly when the current step,
      if one is set, is; a step found as the last failed one always is. */
  lemma OfferIsRecordedIff(s: State)
    requires Classify(Readable(s)).failedStep.Some?
    ensures Lookup(s.steps, Classify(Readable(s)).failedStep.value).Some? <==>
            (s.currentStep.Some? ==> Lookup(s.steps, s.currentStep.value).Some?)
    ensures Classify(Readable(s)).restoreStatus.Some? ==> Lookup(s.steps, Classify(Readable(s)).failedStep.value).Some?
  {
    LastFailedMeans(s.steps);
    if s.currentStep.None? {
      var id := LastFailed(s.steps).value;
      var i :| 0 <= i < |s.steps| && s.steps[i].id == id && s.steps[i].status == FAILED;
      FindFinds(s.steps, id, i);
    }
  }

  /** There is a state that offers a step it does not record. */
  lemma SomeOfferIsUnrecorded() returns (s: State)
    ensures Classify(Readable(s)).failedStep.Some? && Lookup(s.steps, Classify(Readable(s)).failedStep.value).None?
  {
    s := NewState("", "").(currentStep := Some("packages"));
    OfferIsRecordedIff(s);
  }

  lemma {:induction false} PhaseOfRun(s: State, calls: seq<Call>)
    requires forall j :: 0 <= j < |calls| ==> !calls[j].SetPhase?
    ensures Run(s, calls).phase == s.phase
  {
    if calls != [] { PhaseOfRun(s, calls[..|calls| - 1]); }
  }

  /** Begin, complete and fail never change the phase, so once an install is completed no further
      step makes it resumable. */
  lemma {:induction false} CompletedStaysCompleted(s: State, calls: seq<Call>)
    requires s.phase == PhaseName(Completed) && forall j :: 0 <= j < |calls| ==> !calls[j].SetPhase?
    ensures !Classify(Readable(Run(s, calls))).canResume && !CanRetry(Run(s, calls))
    ensures RecommendedAction(Classify(Readable(Run(s, calls))).canResume, true, true) == "rollback"
  {
    PhaseOfRun(s, calls);
  }
}
