/** The installer's recorded progress: steps that begin, complete and fail. */
module InstallerState {
  import opened Options

  const STATE_VERSION := 2
  const MAX_ATTEMPTS: nat := 0xFFFF_FFFF
  const RUNNING := "running"
  const COMPLETED := "completed"
  const FAILED := "failed"

  datatype Phase =
    | Initialized | Prepared | PackageFailed | PackagesInstalled | VhostFailed | RuntimeConfigured
    | DatabaseConfigured | AppFetched | AppConfigured | VhostEnabled | TlsEnabled | HealthChecked | Completed

  function PhaseName(p: Phase): string {
    match p
    case Initialized => "initialized"
    case Prepared => "prepared"
    case PackageFailed => "package-failed"
    case PackagesInstalled => "packages-installed"
    case VhostFailed => "vhost-failed"
    case RuntimeConfigured => "runtime-configured"
    case DatabaseConfigured => "database-configured"
    case AppFetched => "app-fetched"
    case AppConfigured => "app-configured"
    case VhostEnabled => "vhost-enabled"
    case TlsEnabled => "tls-enabled"
    case HealthChecked => "health-checked"
    case Completed => "completed"
  }

  datatype Step = Step(id: string, status: string, attempts: nat, lastError: Option<string>,
                       restoreStatus: Option<string>)

  /** A recorded state; one read from disk may hold any strings. */
  datatype State = State(version: nat, installId: string, domain: string, phase: string,
                         completedSteps: seq<string>, currentStep: Option<string>, steps: seq<Step>)

  function NewState(installId: string, domain: string): State {
    State(STATE_VERSION, installId, domain, PhaseName(Initialized), [], None, [])
  }

  /* ---- the calls ---- */

  function SaturatingInc(n: nat): nat { if n >= MAX_ATTEMPTS then MAX_ATTEMPTS else n + 1 }

  function Restored(restored: bool): string { if restored then "restored" else "not-restored" }

  /** The place of the first step with this id, or the number of steps. */
  function Find(steps: seq<Step>, id: string): (i: nat)
    ensures i <= |steps| && (i < |steps| ==> steps[i].id == id)
    ensures forall j :: 0 <= j < i ==> steps[j].id != id
  {
    if steps == [] || steps[0].id == id then 0 else 1 + Find(steps[1..], id)
  }

  datatype Call = Begin(id: string) | Complete(id: string) | Fail(id: string, error: string, restored: bool)
    | SetPhase(phase: Phase)

  /** What a call makes of the step it names, if that step is recorded yet. */
  function Touch(before: Option<Step>, c: Call): Option<Step> {
    match c
    case Begin(id) =>
      Some(if before.Some? then before.value.(status := RUNNING, attempts := SaturatingInc(before.value.attempts),
                                              lastError := None, restoreStatus := None)
           else Step(id, RUNNING, 1, None, None))
    case Complete(id) =>
      if before.Some? then Some(before.value.(status := COMPLETED, lastError := None, restoreStatus := None)) else None
    case Fail(id, error, restored) =>
      Some(if before.Some? then before.value.(status := FAILED, lastError := Some(error),
                                              restoreStatus := Some(Restored(restored)))
           else Step(id, FAILED, 1, Some(error), Some(Restored(restored))))
    case SetPhase(_) => before
  }

  function TouchIn(steps: seq<Step>, id: string, c: Call): seq<Step> {
    var i := Find(steps, id);
    if i < |steps| then steps[i := Touch(Some(steps[i]), c).value]
    else if Touch(None, c).Some? then steps + [Touch(None, c).value]
    else steps
  }

  function Apply(s: State, c: Call): State {
    match c
    case Begin(id) => s.(version := STATE_VERSION, currentStep := Some(id), steps := TouchIn(s.steps, id, c))
    case Complete(id) =>
      s.(version := STATE_VERSION, currentStep := if s.currentStep == Some(id) then None else s.currentStep,
         steps := TouchIn(s.steps, id, c))
    case Fail(id, _, _) => s.(version := STATE_VERSION, currentStep := Some(id), steps := TouchIn(s.steps, id, c))
    case SetPhase(p) => s.(phase := PhaseName(p))
  }

  function Run(s: State, calls: seq<Call>): State {
    if calls == [] then s else Apply(Run(s, calls[..|calls| - 1]), calls[|calls| - 1])
  }

  predicate CanRetry(s: State) {
    s.phase != PhaseName(Completed) &&
      (s.currentStep.Some? || exists i :: 0 <= i < |s.steps| && s.steps[i].status == FAILED)
  }

  /* ---- what the calls mean, one step at a time ---- */

  predicate Names(c: Call, id: string) {
    !c.SetPhase? && c.id == id
  }

  /** The record of one step, from the calls that name it alone. */
  function Record(calls: seq<Call>, id: string): Option<Step> {
    if calls == [] then None
    else
      var before := Record(calls[..|calls| - 1], id);
      var c := calls[|calls| - 1];
      if Names(c, id) then Touch(before, c) else before
  }

  /** The step under way: the last begun or failed, unless it was completed since. */
  function Current(calls: seq<Call>): Option<string> {
    if calls == [] then None
    else
      match calls[|calls| - 1]
      case Begin(id) => Some(id)
      case Fail(id, _, _) => Some(id)
      case Complete(id) => (var before := Current(calls[..|calls| - 1]); if before == Some(id) then None else before)
      case SetPhase(_) => Current(calls[..|calls| - 1])
  }

  function Begins(calls: seq<Call>, id: string): nat {
    if calls == [] then 0
    else Begins(calls[..|calls| - 1], id) + if calls[|calls| - 1] == Begin(id) then 1 else 0
  }

  /** Whether the step was first recorded by a failure. */
  predicate BornFailed(calls: seq<Call>, id: string) {
    exists k :: 0 <= k < |calls| && calls[k].Fail? && calls[k].id == id && Begins(calls[..k], id) == 0
  }

  /** The first step with this id. */
  function Lookup(steps: seq<Step>, id: string): Option<Step> {
    if Find(steps, id) < |steps| then Some(steps[Find(steps, id)]) else None
  }

  ghost predicate UniqueIds(steps: seq<Step>) {
    forall i, j :: 0 <= i < j < |steps| ==> steps[i].id != steps[j].id
  }

  lemma FindUnique(steps: seq<Step>, id: string, i: nat)
    requires UniqueIds(steps) && i < |steps| && steps[i].id == id
    ensures Find(steps, id) == i
  {}

  /** A call changes the record of the step it names and no other. */
  lemma TouchIsLocal(steps: seq<Step>, c: Call, id: string)
    requires !c.SetPhase? && UniqueIds(steps)
    ensures UniqueIds(TouchIn(steps, c.id, c))
    ensures Lookup(TouchIn(steps, c.id, c), id) == if c.id == id then Touch(Lookup(steps, id), c) else Lookup(steps, id)
  {
    var i, after := Find(steps, c.id), TouchIn(steps, c.id, c);
    assert forall j :: 0 <= j < |steps| ==> after[j].id == steps[j].id;
    var k := Find(steps, id);
    if k < |after| && after[k].id == id { FindUnique(after, id, k); }
    if k == |steps| && c.id != id {
      assert forall j :: 0 <= j < |after| ==> after[j].id != id;
    }
  }

  /** Every run is the sum of its steps: each recorded step is what its own calls make of it,
      ids never repeat, and the current step is the last one begun or failed and not completed. */
  lemma {:induction false} RunIsRecord(installId: string, domain: string, calls: seq<Call>, id: string)
    ensures var s := Run(NewState(installId, domain), calls);
            UniqueIds(s.steps) && Lookup(s.steps, id) == Record(calls, id) && s.currentStep == Current(calls)
  {
    if calls != [] {
      var n := |calls| - 1;
      RunIsRecord(installId, domain, calls[..n], id);
      if !calls[n].SetPhase? {
        TouchIsLocal(Run(NewState(installId, domain), calls[..n]).steps, calls[n], id);
      }
    }
  }

  /* ---- invariants of every record ---- */

  predicate Consistent(s: Step) {
    && s.status in {RUNNING, COMPLETED, FAILED}
    && (s.status == FAILED <==> s.lastError.Some?)
    && (s.lastError.Some? <==> s.restoreStatus.Some?)
    && 1 <= s.attempts <= MAX_ATTEMPTS
  }

  lemma {:induction false} RecordIsConsistent(calls: seq<Call>, id: string)
    ensures Record(calls, id).Some? ==> Consistent(Record(calls, id).value) && Record(calls, id).value.id == id
    ensures Record(calls, id).None? <==>
            forall k :: 0 <= k < |calls| ==> !(calls[k].Begin? || calls[k].Fail?) || calls[k].id != id
  {
    if calls != [] {
      var n := |calls| - 1;
      RecordIsConsistent(calls[..n], id);
      assert forall k :: 0 <= k < n ==> calls[..n][k] == calls[k];
    }
  }

  lemma {:induction false} CurrentIsUnderWay(calls: seq<Call>)
    ensures Current(calls).Some? ==>
              var r := Record(calls, Current(calls).value); r.Some? && r.value.status in {RUNNING, FAILED}
  {
    if calls != [] { CurrentIsUnderWay(calls[..|calls| - 1]); }
  }

  /** In every reachable state a step is failed iff it has an error iff it has a restore status,
      and a set current step names a recorded step that is running or failed. */
  lemma ReachableStatesAreConsistent(installId: string, domain: string, calls: seq<Call>)
    ensures var s := Run(NewState(installId, domain), calls);
            && UniqueIds(s.steps) && (forall i :: 0 <= i < |s.steps| ==> Consistent(s.steps[i]))
            && (s.currentStep.Some? ==>
                  var at := Find(s.steps, s.currentStep.value);
                  at < |s.steps| && s.steps[at].status in {RUNNING, FAILED})
  {
    var s := Run(NewState(installId, domain), calls);
    RunIsRecord(installId, domain, calls, "");
    forall i | 0 <= i < |s.steps| ensures Consistent(s.steps[i]) {
      RunIsRecord(installId, domain, calls, s.steps[i].id);
      FindUnique(s.steps, s.steps[i].id, i);
      RecordIsConsistent(calls, s.steps[i].id);
    }
    if s.currentStep.Some? {
      RunIsRecord(installId, domain, calls, s.currentStep.value);
      CurrentIsUnderWay(calls);
    }
  }

  /** A step's attempts are the begins it has seen, plus one if a failure recorded it first,
      saturating at the largest 32-bit number. */
  lemma {:induction false} AttemptsCountBegins(calls: seq<Call>, id: string)
    requires Record(calls, id).Some?
    ensures var n := Begins(calls, id) + if BornFailed(calls, id) then 1 else 0;
            Record(calls, id).value.attempts == if n > MAX_ATTEMPTS then MAX_ATTEMPTS else n
  {
    var last := |calls| - 1;
    var before, c := calls[..last], calls[last];
    BornFailedStep(calls, id);
    if Record(before, id).Some? {
      AttemptsCountBegins(before, id);
      if c.Fail? && c.id == id && Begins(before, id) == 0 { RecordedWithoutBegin(before, id); }
    } else {
      NothingBeforeRecord(before, id);
    }
  }

  lemma BornFailedStep(calls: seq<Call>, id: string)
    requires calls != []
    ensures var n := |calls| - 1;
            BornFailed(calls, id) <==>
            BornFailed(calls[..n], id) || (calls[n].Fail? && calls[n].id == id && Begins(calls[..n], id) == 0)
  {
    var n := |calls| - 1;
    assert forall k :: 0 <= k < n ==> calls[..n][..k] == calls[..k] && calls[..n][k] == calls[k];
    if k :| 0 <= k < |calls[..n]| && calls[..n][k].Fail? && calls[..n][k].id == id && Begins(calls[..n][..k], id) == 0 {
      assert calls[k].Fail? && Begins(calls[..k], id) == 0;
    }
  }

  lemma {:induction false} NothingBeforeRecord(calls: seq<Call>, id: string)
    requires Record(calls, id).None?
    ensures Begins(calls, id) == 0 && !BornFailed(calls, id)
  {
    RecordIsConsistent(calls, id);
    if calls != [] {
      assert Record(calls[..|calls| - 1], id).None?;
      NothingBeforeRecord(calls[..|calls| - 1], id);
      BornFailedStep(calls, id);
    }
  }

  lemma {:induction false} RecordedWithoutBegin(calls: seq<Call>, id: string)
    requires Record(calls, id).Some? && Begins(calls, id) == 0
    ensures BornFailed(calls, id)
  {
    var n := |calls| - 1;
    BornFailedStep(calls, id);
    if Record(calls[..n], id).Some? { RecordedWithoutBegin(calls[..n], id); }
  }

  /* ---- the object ---- */

  class Installer {
    var version: nat
    var installId: string
    var domain: string
    var phase: string
    var completedSteps: seq<string>
    var currentStep: Option<string>
    var steps: seq<Step>

    function View(): State
      reads this
    {
      State(version, installId, domain, phase, completedSteps, currentStep, steps)
    }

    constructor (installId: string, domain: string)
      ensures View() == NewState(installId, domain)
    {
      version, this.installId, this.domain := STATE_VERSION, installId, domain;
      phase, completedSteps, currentStep, steps := PhaseName(Initialized), [], None, [];
    }

    method IndexOf(id: string) returns (i: nat)
      ensures i == Find(steps, id)
    {
      i := 0;
      while i < |steps| && steps[i].id != id
        invariant i <= |steps| && Find(steps, id) == i + Find(steps[i..], id)
      {
        assert steps[i..][0] == steps[i] && steps[i..][1..] == steps[i + 1..];
        i := i + 1;
      }
      assert i < |steps| ==> steps[i..][0] == steps[i];
    }

    method SetPhase(p: Phase)
      modifies this`phase
      ensures View() == Apply(old(View()), Call.SetPhase(p))
    {
      phase := PhaseName(p);
    }

    method BeginStep(id: string)
      modifies this
      ensures View() == Apply(old(View()), Begin(id))
    {
      version := STATE_VERSION;
      currentStep := Some(id);
      var i := IndexOf(id);
      if i < |steps| {
        var step := steps[i];
        steps := steps[i := Step(step.id, RUNNING, SaturatingInc(step.attempts), None, None)];
      } else {
        steps := steps + [Step(id, RUNNING, 1, None, None)];
      }
    }

    method CompleteStep(id: string)
      modifies this
      ensures View() == Apply(old(View()), Complete(id))
    {
      version := STATE_VERSION;
      var i := IndexOf(id);
      if i < |steps| {
        steps := steps[i := steps[i].(status := COMPLETED, lastError := None, restoreStatus := None)];
      }
      if currentStep == Some(id) {
        currentStep := None;
      }
    }

    method FailStep(id: string, error: string, restored: bool)
      modifies this
      ensures View() == Apply(old(View()), Fail(id, error, restored))
    {
      version := STATE_VERSION;
      currentStep := Some(id);
      var i := IndexOf(id);
      if i < |steps| {
        steps := steps[i := steps[i].(status := FAILED, lastError := Some(error),
                                      restoreStatus := Some(Restored(restored)))];
      } else {
        steps := steps + [Step(id, FAILED, 1, Some(error), Some(Restored(restored)))];
      }
    }
  }
}
