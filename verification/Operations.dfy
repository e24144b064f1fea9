/** Mutual exclusion among installer operations: the controller's running flag, which admits one
    web operation at a time, and the lock file, which every operation's body must hold. */
module Operations {
  import opened Options

  /** Flagged: install, resume, finalize, reset and rollback started from the web. A provision
      action only looks at the flag; a command line run does not know it. */
  datatype Kind = Flagged(name: string) | Provision | CommandLine(name: string)

  /** From `Claimed` to `Unwinding` a flagged operation owns the flag: it was swapped to true for it
      and its guard has not been dropped. In `Locking` and `Locked` it owns the lock, and its body
      runs in `Locked`. `Crashed` means that the worker panicked and the handler has yet to hear. */
  datatype Stage = Entered | Claimed | Working | Locking | Locked | Leaving | Unwinding | Crashed | Done | Rejected

  /** `awaited` is false once the client has gone and the handler with it. */
  datatype Operation = Operation(kind: Kind, stage: Stage, awaited: bool)

  /** The flag of the controller, the lock's holder and the line in the lock file. */
  datatype Shared = Shared(flag: bool, lock: Option<nat>, owner: string)

  datatype System = System(shared: Shared, operations: seq<Operation>)

  datatype Action =
    | Enter(kind: Kind)
    | Admit(op: nat)
    | Begin(op: nat)
    | TryLock(op: nat, opens: bool)
    | Record(op: nat, line: string, written: bool)   // a failed write may leave any `line`
    | EndBody(op: nat)
    | Return(op: nat)
    | Panic(op: nat)
    | Unwind(op: nat)
    | Join(op: nat)
    | Abandon(op: nat)

  predicate HoldsLock(o: Operation) { o.stage == Locking || o.stage == Locked }

  predicate OwnsFlag(o: Operation) {
    o.kind.Flagged? &&
    (o.stage == Claimed || o.stage == Working || o.stage == Unwinding || o.stage == Leaving || HoldsLock(o))
  }

  function Label(kind: Kind): string {
    match kind
    case Flagged(name) => name
    case Provision => "provision"
    case CommandLine(name) => name
  }

  /** What one step of operation `i` makes of the shared state and of itself. */
  function ActOne(h: Shared, i: nat, o: Operation, a: Action): (Shared, Operation)
    requires !a.Enter?
  {
    match a
    case Admit(_) =>
      if o.stage != Entered then (h, o)
      else if o.kind.CommandLine? then (h, o.(stage := Working))
      else if h.flag then (h, o.(stage := Rejected))
      else if o.kind.Provision? then (h, o.(stage := Working))
      else (h.(flag := true), o.(stage := Claimed))
    case Begin(_) => if o.stage == Claimed then (h, o.(stage := Working)) else (h, o)
    case TryLock(_, opens) =>
      if o.stage != Working then (h, o)
      else if opens && h.lock.None? then (h.(lock := Some(i)), o.(stage := Locking))
      else (h, o.(stage := Leaving))
    case Record(_, line, written) =>
      if o.stage != Locking then (h, o)
      else if written then (h.(owner := Label(o.kind)), o.(stage := Locked))
      else (h.(owner := line, lock := None), o.(stage := Leaving))
    case EndBody(_) => if o.stage == Locked then (h.(lock := None), o.(stage := Leaving)) else (h, o)
    case Return(_) =>
      if o.stage != Leaving then (h, o)
      else (if o.kind.Flagged? then h.(flag := false) else h, o.(stage := Done))
    case Panic(_) =>
      if o.stage == Working then (h, o.(stage := Unwinding))
      else if HoldsLock(o) then (h.(lock := None), o.(stage := Unwinding))
      else (h, o)
    case Unwind(_) =>
      if o.stage != Unwinding then (h, o)
      else if o.kind.Flagged? then (h.(flag := false), o.(stage := Crashed))
      else (h, o.(stage := Done))
    case Join(_) =>
      if o.stage != Crashed then (h, o)
      else (if o.awaited then h.(flag := false) else h, o.(stage := Done))
    case Abandon(_) => (h, o.(awaited := false))
  }

  function Step(s: System, a: Action): System {
    if a.Enter? then s.(operations := s.operations + [Operation(a.kind, Entered, true)])
    else if a.op < |s.operations| then
      var (h, o) := ActOne(s.shared, a.op, s.operations[a.op], a);
      System(h, s.operations[a.op := o])
    else s
  }

  function Run(s: System, actions: seq<Action>): System {
    if actions == [] then s else Step(Run(s, actions[..|actions| - 1]), actions[|actions| - 1])
  }

  const IDLE := System(Shared(false, None, ""), [])

  function After(actions: seq<Action>, n: nat): System
    requires n <= |actions|
  {
    Run(IDLE, actions[..n])
  }

  lemma AfterNext(actions: seq<Action>, n: nat)
    requires n < |actions|
    ensures After(actions, n + 1) == Step(After(actions, n), actions[n])
  {
    assert actions[..n + 1][..n] == actions[..n];
  }

  /* ---- the lock ---- */

  /** Exactly the holder is in its locked part, and while its body runs the file names it. */
  ghost predicate LockExact(s: System) {
    && (s.shared.lock.Some? ==> s.shared.lock.value < |s.operations|)
    && (forall i :: 0 <= i < |s.operations| ==> LockAgrees(s.shared, i, s.operations[i]))
  }

  predicate LockAgrees(h: Shared, i: nat, o: Operation) {
    (HoldsLock(o) <==> h.lock == Some(i)) && (o.stage == Locked ==> h.owner == Label(o.kind))
  }

  lemma ActKeepsLock(h: Shared, i: nat, o: Operation, a: Action)
    requires !a.Enter? && LockAgrees(h, i, o)
    ensures var (h', o') := ActOne(h, i, o, a);
            && LockAgrees(h', i, o')
            && (h'.lock == h.lock || (h.lock == None && h'.lock == Some(i)) || (h.lock == Some(i) && h'.lock == None))
            && (h'.owner == h.owner || h.lock == Some(i))
  {}

  lemma StepKeepsLock(s: System, a: Action)
    requires LockExact(s)
    ensures LockExact(Step(s, a))
  {
    if !a.Enter? && a.op < |s.operations| {
      ActKeepsLock(s.shared, a.op, s.operations[a.op], a);
    }
  }

  /** In every run, with panics at any point, abandoned handlers and failing lock files, at most
      one body runs and the lock file names it: a loser never touches the line. */
  lemma {:induction false} BodiesExclude(actions: seq<Action>)
    ensures LockExact(Run(IDLE, actions))
    ensures var ops := Run(IDLE, actions).operations;
            forall i, j :: 0 <= i < |ops| && 0 <= j < |ops| && ops[i].stage == Locked && ops[j].stage == Locked ==>
              i == j
    ensures var s := Run(IDLE, actions);
            forall i :: 0 <= i < |s.operations| && s.operations[i].stage == Locked ==>
              s.shared.owner == Label(s.operations[i].kind)
  {
    if actions != [] {
      var n := |actions| - 1;
      BodiesExclude(actions[..n]);
      StepKeepsLock(Run(IDLE, actions[..n]), actions[n]);
    }
  }

  /* ---- the flag ---- */

  /** The flag is up exactly while one flagged operation is in flight. */
  ghost predicate FlagExact(s: System) {
    && (s.shared.flag ==> SomeOwner(s.operations))
    && (forall i :: 0 <= i < |s.operations| && OwnsFlag(s.operations[i]) ==> s.shared.flag)
    && (forall i, j :: 0 <= i < j < |s.operations| ==> !(OwnsFlag(s.operations[i]) && OwnsFlag(s.operations[j])))
  }

  ghost predicate SomeOwner(ops: seq<Operation>) {
    exists i :: 0 <= i < |ops| && OwnsFlag(ops[i])
  }

  /** A handler learns of its worker's panic and clears the flag that by now belongs to another. */
  ghost predicate StaleClear(s: System, a: Action) {
    && a.Join? && a.op < |s.operations| && s.operations[a.op].stage == Crashed && s.operations[a.op].awaited
    && SomeOwner(s.operations)
  }

  /** Flag and ownership rise together, fall together, or both stay. */
  predicate MovesTogether(h: Shared, o: Operation, h': Shared, o': Operation) {
    || (h'.flag == h.flag && OwnsFlag(o') == OwnsFlag(o))
    || (!h.flag && h'.flag && !OwnsFlag(o) && OwnsFlag(o'))
    || (h.flag && !h'.flag && OwnsFlag(o) && !OwnsFlag(o'))
  }

  lemma ActMovesFlag(h: Shared, i: nat, o: Operation, a: Action)
    requires !a.Enter? && (OwnsFlag(o) ==> h.flag)
    requires !(a.Join? && o.stage == Crashed && o.awaited && h.flag)
    ensures var (h', o') := ActOne(h, i, o, a); MovesTogether(h, o, h', o')
  {}

  lemma MoveKeepsFlag(s: System, i: nat, h: Shared, o: Operation)
    requires FlagExact(s) && i < |s.operations| && MovesTogether(s.shared, s.operations[i], h, o)
    ensures FlagExact(System(h, s.operations[i := o]))
  {
    var ops := s.operations[i := o];
    if h.flag {
      if OwnsFlag(o) {
        assert OwnsFlag(ops[i]);
      } else {
        var j :| 0 <= j < |s.operations| && OwnsFlag(s.operations[j]);
        assert OwnsFlag(ops[j]);
      }
    }
  }

  lemma StepKeepsFlag(s: System, a: Action)
    requires FlagExact(s) && !StaleClear(s, a)
    ensures FlagExact(Step(s, a))
  {
    if a.Enter? {
      if j :| 0 <= j < |s.operations| && OwnsFlag(s.operations[j]) {
        assert OwnsFlag(Step(s, a).operations[j]);
      }
    } else if a.op < |s.operations| {
      var (h, o) := ActOne(s.shared, a.op, s.operations[a.op], a);
      ActMovesFlag(s.shared, a.op, s.operations[a.op], a);
      MoveKeepsFlag(s, a.op, h, o);
    }
  }

  lemma StaleClearBreaks(s: System, a: Action)
    requires StaleClear(s, a)
    ensures !FlagExact(Step(s, a))
  {
    var i :| 0 <= i < |s.operations| && OwnsFlag(s.operations[i]);
    assert OwnsFlag(Step(s, a).operations[i]);
  }

  lemma {:induction false} ExactUntil(actions: seq<Action>, n: nat)
    requires n <= |actions|
    requires forall k :: 0 <= k < n ==> !StaleClear(After(actions, k), actions[k])
    ensures FlagExact(After(actions, n))
  {
    if n > 0 {
      ExactUntil(actions, n - 1);
      AfterNext(actions, n - 1);
      StepKeepsFlag(After(actions, n - 1), actions[n - 1]);
    }
  }

  /** The flag stays exact through a run exactly when no handler clears it stalely. */
  lemma FlagIsExactIff(actions: seq<Action>)
    ensures (forall n :: 0 <= n <= |actions| ==> FlagExact(After(actions, n)))
            <==> (forall k :: 0 <= k < |actions| ==> !StaleClear(After(actions, k), actions[k]))
  {
    if forall k :: 0 <= k < |actions| ==> !StaleClear(After(actions, k), actions[k]) {
      forall n | 0 <= n <= |actions| ensures FlagExact(After(actions, n)) { ExactUntil(actions, n); }
    } else {
      var k :| 0 <= k < |actions| && StaleClear(After(actions, k), actions[k]);
      AfterNext(actions, k);
      StaleClearBreaks(After(actions, k), actions[k]);
    }
  }

  predicate Panicked(o: Operation) { o.stage == Unwinding || o.stage == Crashed }

  ghost predicate NonePanicked(ops: seq<Operation>) {
    forall i :: 0 <= i < |ops| ==> !Panicked(ops[i])
  }

  lemma ActWithoutPanic(h: Shared, i: nat, o: Operation, a: Action)
    requires !a.Enter? && !a.Panic? && !Panicked(o)
    ensures !Panicked(ActOne(h, i, o, a).1)
  {}

  lemma {:induction false} NobodyCrashes(actions: seq<Action>)
    requires forall a :: a in actions ==> !a.Panic?
    ensures NonePanicked(Run(IDLE, actions).operations)
  {
    if actions != [] {
      var n := |actions| - 1;
      assert actions[n] in actions && forall a :: a in actions[..n] ==> a in actions;
      NobodyCrashes(actions[..n]);
      var s := Run(IDLE, actions[..n]);
      if !actions[n].Enter? && actions[n].op < |s.operations| {
        ActWithoutPanic(s.shared, actions[n].op, s.operations[actions[n].op], actions[n]);
      }
    }
  }

  /** Without panics the flag is up exactly while one operation is in flight; in particular it is
      down again whenever none is. */
  lemma PanicFreeFlagIsExact(actions: seq<Action>)
    requires forall a :: a in actions ==> !a.Panic?
    ensures FlagExact(Run(IDLE, actions))
  {
    forall k | 0 <= k < |actions| ensures !StaleClear(After(actions, k), actions[k]) {
      assert forall a :: a in actions[..k] ==> a in actions;
      NobodyCrashes(actions[..k]);
      var s := After(actions, k);
      if actions[k].Join? && actions[k].op < |s.operations| { assert !Panicked(s.operations[actions[k].op]); }
    }
    ExactUntil(actions, |actions|);
    assert actions[..|actions|] == actions;
  }

  lemma ActKeepsOwner(h: Shared, i: nat, o: Operation, a: Action)
    requires !a.Enter?
    ensures var (h', o') := ActOne(h, i, o, a); h'.flag ==> (!h.flag || OwnsFlag(o) ==> OwnsFlag(o'))
  {}

  lemma StepKeepsOwner(s: System, a: Action)
    requires s.shared.flag ==> SomeOwner(s.operations)
    ensures Step(s, a).shared.flag ==> SomeOwner(Step(s, a).operations)
  {
    var s' := Step(s, a);
    if s'.shared.flag && s.shared.flag {
      var j :| 0 <= j < |s.operations| && OwnsFlag(s.operations[j]);
      if !a.Enter? && a.op == j { ActKeepsOwner(s.shared, j, s.operations[j], a); }
      assert OwnsFlag(s'.operations[j]);
    } else if s'.shared.flag {
      ActKeepsOwner(s.shared, a.op, s.operations[a.op], a);
      assert OwnsFlag(s'.operations[a.op]);
    }
  }

  /** In every run, with panics at any point and stale clears, a flag that is up belongs to a flagged
      operation in flight: it never sticks once they are all gone. */
  lemma {:induction false} FlagNeverSticks(actions: seq<Action>)
    ensures Run(IDLE, actions).shared.flag ==> SomeOwner(Run(IDLE, actions).operations)
  {
    if actions != [] {
      var n := |actions| - 1;
      FlagNeverSticks(actions[..n]);
      StepKeepsOwner(Run(IDLE, actions[..n]), actions[n]);
    }
  }

  function Overlap(name: string): seq<Action> {
    [Enter(Flagged(name)), Admit(0), Begin(0), Panic(0), Unwind(0),
     Enter(Flagged(name)), Admit(1), Join(0), Enter(Flagged(name)), Admit(2)]
  }

  lemma Unfold(actions: seq<Action>, n: nat, s: System)
    requires n < |actions| && Run(IDLE, actions[..n]) == s
    ensures Run(IDLE, actions[..n + 1]) == Step(s, actions[n])
  {
    AfterNext(actions, n);
  }

  lemma WorkerStarted(name: string)
    ensures Run(IDLE, Overlap(name)[..3]) == System(Shared(true, None, ""), [Operation(Flagged(name), Working, true)])
  {
    var acts, n := Overlap(name), Operation(Flagged(name), Entered, true);
    Unfold(acts, 0, IDLE);
    Unfold(acts, 1, System(Shared(false, None, ""), [n]));
    Unfold(acts, 2, System(Shared(true, None, ""), [n.(stage := Claimed)]));
  }

  lemma WorkerPanics(name: string)
    ensures Run(IDLE, Overlap(name)[..4]) == System(Shared(true, None, ""), [Operation(Flagged(name), Unwinding, true)])
  {
    WorkerStarted(name);
    Unfold(Overlap(name), 3, System(Shared(true, None, ""), [Operation(Flagged(name), Working, true)]));
  }

  lemma WorkerCrashed(name: string)
    ensures Run(IDLE, Overlap(name)[..5]) == System(Shared(false, None, ""), [Operation(Flagged(name), Crashed, true)])
  {
    WorkerPanics(name);
    Unfold(Overlap(name), 4, System(Shared(true, None, ""), [Operation(Flagged(name), Unwinding, true)]));
  }

  lemma SecondClaims(name: string)
    ensures Run(IDLE, Overlap(name)[..7]) ==
            System(Shared(true, None, ""),
                   [Operation(Flagged(name), Crashed, true), Operation(Flagged(name), Claimed, true)])
  {
    var first, second := Operation(Flagged(name), Crashed, true), Operation(Flagged(name), Entered, true);
    WorkerCrashed(name);
    Unfold(Overlap(name), 5, System(Shared(false, None, ""), [first]));
    Unfold(Overlap(name), 6, System(Shared(false, None, ""), [first, second]));
  }

  lemma StalelyCleared(name: string)
    ensures Run(IDLE, Overlap(name)[..8]) ==
            System(Shared(false, None, ""),
                   [Operation(Flagged(name), Done, true), Operation(Flagged(name), Claimed, true)])
  {
    var first, second := Operation(Flagged(name), Crashed, true), Operation(Flagged(name), Claimed, true);
    SecondClaims(name);
    Unfold(Overlap(name), 7, System(Shared(true, None, ""), [first, second]));
  }

  /** A panic can put two flagged operations in flight at once: the first one's handler clears the
      flag after the second has claimed it, and a third is admitted. */
  lemma StaleClearAdmitsASecond(name: string)
    ensures var s := Run(IDLE, Overlap(name));
            |s.operations| == 3 && OwnsFlag(s.operations[1]) && OwnsFlag(s.operations[2]) &&
              s.operations[2].stage == Claimed
  {
    var acts, n, down := Overlap(name), Operation(Flagged(name), Entered, true), Shared(false, None, "");
    StalelyCleared(name);
    Unfold(acts, 8, System(down, [n.(stage := Done), n.(stage := Claimed)]));
    Unfold(acts, 9, System(down, [n.(stage := Done), n.(stage := Claimed), n]));
    assert acts[..10] == acts;
  }

  /* ---- the code ---- */

  /** The shared flag of the controller. */
  class RunningFlag {
    var up: bool

    constructor ()
      ensures !up
    {
      up := false;
    }

    /** `swap(true)`. */
    method Claim() returns (taken: bool)
      modifies this
      ensures taken == old(up) && up
    {
      taken := up;
      up := true;
    }

    /** The guard's drop, and a handler's store after a failed join. */
    method Clear()
      modifies this
      ensures !up
    {
      up := false;
    }
  }

  /** The lock file: who holds the lock, and what is written in it. */
  class LockFile {
    var holder: Option<nat>
    var owner: string

    constructor ()
      ensures holder == None && owner == ""
    {
      holder, owner := None, "";
    }

    /** `InstallerLock::acquire`: open, lock, then rewrite the line; an error after locking drops
        the file and with it the lock. */
    method Acquire(i: nat, kind: Kind, opens: bool, line: string, written: bool) returns (ok: bool)
      modifies this
      ensures ok <==> opens && written && old(holder) == None
      ensures ok ==> holder == Some(i) && owner == Label(kind)
      ensures !ok ==> holder == old(holder) && owner == if opens && holder == None then line else old(owner)
    {
      if !opens || holder.Some? { return false; }
      holder := Some(i);
      if !written {
        owner := line;
        holder := None;
        return false;
      }
      owner := Label(kind);
      return true;
    }

    /** `Drop`. */
    method Release()
      modifies this`holder
      ensures holder == None
    {
      holder := None;
    }
  }

  class Controller {
    const running: RunningFlag
    const lock: LockFile
    var operations: seq<Operation>

    constructor ()
      ensures fresh(running) && fresh(lock) && View() == IDLE
    {
      running := new RunningFlag();
      lock := new LockFile();
      operations := [];
    }

    function View(): System
      reads this, running, lock
    {
      System(Shared(running.up, lock.holder, lock.owner), operations)
    }

    /** What a web handler does first. */
    method Admit(i: nat) returns (admitted: bool)
      requires i < |operations| && operations[i].stage == Entered && !operations[i].kind.CommandLine?
      modifies this, running
      ensures View() == Step(old(View()), Action.Admit(i))
      ensures admitted <==> !old(running.up)
    {
      if operations[i].kind.Provision? {
        admitted := !running.up;
        operations := operations[i := operations[i].(stage := if admitted then Working else Rejected)];
      } else {
        var taken := running.Claim();
        admitted := !taken;
        operations := operations[i := operations[i].(stage := if admitted then Claimed else Rejected)];
      }
    }

    /** The start of every body: no lock, no body. */
    method Acquire(i: nat, opens: bool, line: string, written: bool) returns (ok: bool)
      requires i < |operations| && operations[i].stage == Working
      modifies this, lock
      ensures View() == Step(Step(old(View()), TryLock(i, opens)), Record(i, line, written))
      ensures ok <==> operations[i].stage == Locked
    {
      ok := lock.Acquire(i, operations[i].kind, opens, line, written);
      operations := operations[i := operations[i].(stage := if ok then Locked else Leaving)];
    }

    /** The worker returns, after its body or because it was refused the lock: a lock it holds goes
        first, then its guard. */
    method Leave(i: nat)
      requires i < |operations| && (operations[i].stage == Locked || operations[i].stage == Leaving)
      modifies this, running, lock
      ensures View() == Step(Step(old(View()), EndBody(i)), Return(i))
    {
      if operations[i].stage == Locked { lock.Release(); }
      if operations[i].kind.Flagged? { running.Clear(); }
      operations := operations[i := operations[i].(stage := Done)];
    }

    /** A worker panics, before or after it has the lock: unwinding drops the lock, then the guard. */
    method Crash(i: nat)
      requires i < |operations| && (operations[i].stage == Working || HoldsLock(operations[i]))
      modifies this, running, lock
      ensures View() == Step(Step(old(View()), Panic(i)), Unwind(i))
    {
      if HoldsLock(operations[i]) { lock.Release(); }
      if operations[i].kind.Flagged? { running.Clear(); }
      operations := operations[i := operations[i].(stage := if operations[i].kind.Flagged? then Crashed else Done)];
    }

    /** The handler hears of the panic and clears the flag once more. */
    method Join(i: nat)
      requires i < |operations| && operations[i].stage == Crashed && operations[i].awaited
      modifies this, running
      ensures View() == Step(old(View()), Action.Join(i))
    {
      running.Clear();
      operations := operations[i := operations[i].(stage := Done)];
    }
  }
}
