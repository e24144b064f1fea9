/** Replacing a file through a temporary one, by any number of calls at once. */
module AtomicWrite {
  import opened Strings

  /** File contents by path; what is absent does not exist. */
  type Files = map<string, string>

  /* ---- temporary names ---- */

  function Decimal(n: nat): string {
    if n < 10 then ["0123456789"[n]] else Decimal(n / 10) + ["0123456789"[n % 10]]
  }

  function PathIn(dir: string, name: string): string { dir + "/" + name }

  /** The name a call with counter value `n` in process `pid` writes to first. */
  function TempName(dir: string, name: string, pid: nat, n: nat): string { PathIn(dir, TempLeaf(name, pid, n)) }

  function TempLeaf(name: string, pid: nat, n: nat): string {
    "." + name + ".tmp-" + Decimal(pid) + "-" + Decimal(n)
  }

  lemma {:induction false} DecimalInjective(m: nat, n: nat)
    requires Decimal(m) == Decimal(n)
    ensures m == n
  {
    DigitsDiffer(m % 10, n % 10);
    assert Decimal(m)[|Decimal(m)| - 1] == "0123456789"[m % 10];
    assert Decimal(n)[|Decimal(n)| - 1] == "0123456789"[n % 10];
    DecimalNonEmpty(m / 10);
    DecimalNonEmpty(n / 10);
    if m >= 10 && n >= 10 {
      assert Decimal(m)[..|Decimal(m)| - 1] == Decimal(m / 10);
      assert Decimal(n)[..|Decimal(n)| - 1] == Decimal(n / 10);
      DecimalInjective(m / 10, n / 10);
    }
  }

  lemma DecimalNonEmpty(n: nat)
    ensures |Decimal(n)| >= 1
  {}

  lemma DigitsDiffer(a: nat, b: nat)
    requires a < 10 && b < 10
    ensures "0123456789"[a] == "0123456789"[b] ==> a == b
    ensures "0123456789"[a] != '-'
  {}

  lemma {:induction false} DecimalHasNoDash(n: nat)
    ensures '-' !in Decimal(n)
  {
    DigitsDiffer(n % 10, n % 10);
    if n >= 10 { DecimalHasNoDash(n / 10); }
  }

  function LastDash(s: string): nat {
    if s == "" then 0 else if s[|s| - 1] == '-' then |s| - 1 else LastDash(s[..|s| - 1])
  }

  lemma {:induction false} LastDashOf(x: string, u: string)
    requires '-' !in u
    ensures LastDash(x + "-" + u) == |x|
  {
    var s := x + "-" + u;
    if u != "" {
      assert u[|u| - 1] in u;
      assert s[..|s| - 1] == x + "-" + u[..|u| - 1];
      LastDashOf(x, u[..|u| - 1]);
    }
  }

  lemma SameAfterLastDash(x: string, u: string, y: string, v: string)
    requires x + "-" + u == y + "-" + v && '-' !in u && '-' !in v
    ensures u == v
  {
    LastDashOf(x, u);
    LastDashOf(y, v);
    assert (x + "-" + u)[|x| + 1..] == u && (y + "-" + v)[|y| + 1..] == v;
  }

  lemma EndsDiffer(x: string, y: string, m: nat, n: nat)
    requires m != n
    ensures x + "-" + Decimal(m) != y + "-" + Decimal(n)
  {
    DecimalHasNoDash(m);
    DecimalHasNoDash(n);
    if x + "-" + Decimal(m) == y + "-" + Decimal(n) {
      SameAfterLastDash(x, Decimal(m), y, Decimal(n));
      DecimalInjective(m, n);
    }
  }

  lemma TempLeavesDiffer(name1: string, name2: string, pid: nat, m: nat, n: nat)
    requires m != n
    ensures TempLeaf(name1, pid, m) != TempLeaf(name2, pid, n)
  {
    EndsDiffer("." + name1 + ".tmp-" + Decimal(pid), "." + name2 + ".tmp-" + Decimal(pid), m, n);
  }

  lemma EndOfTempName(dir: string, name: string, pid: nat, n: nat)
    ensures TempName(dir, name, pid, n) == (dir + "/" + "." + name + ".tmp-" + Decimal(pid)) + "-" + Decimal(n)
  {
    var stem := "." + name + ".tmp-" + Decimal(pid);
    Assoc(dir + "/", stem + "-", Decimal(n));
    Assoc(dir + "/", stem, "-");
    assert (dir + "/") + stem == dir + "/" + "." + name + ".tmp-" + Decimal(pid);
  }

  /** Calls with different counter values never share a temporary name. */
  lemma TempNamesDiffer(dir1: string, name1: string, dir2: string, name2: string, pid: nat, m: nat, n: nat)
    requires m != n
    ensures TempName(dir1, name1, pid, m) != TempName(dir2, name2, pid, n)
  {
    EndOfTempName(dir1, name1, pid, m);
    EndOfTempName(dir2, name2, pid, n);
    var x, y := dir1 + "/" + "." + name1 + ".tmp-" + Decimal(pid), dir2 + "/" + "." + name2 + ".tmp-" + Decimal(pid);
    EndsDiffer(x, y, m, n);
  }

  ghost predicate IsTempName(path: string, pid: nat) {
    exists dir, name, n :: path == TempName(dir, name, pid, n)
  }

  /* ---- concurrent calls as steps ---- */

  /** `renamed` tells whether the error came after the rename. */
  datatype Stage = Started | Writing(done: nat) | Synced | Renamed | Failing(renamed: bool) | Succeeded
    | Failed(renamed: bool)

  datatype Writer = Writer(dir: string, name: string, number: nat, payload: string, stage: Stage)

  datatype System = System(files: Files, pid: nat, counter: nat, writers: seq<Writer>)

  datatype Op = Create | Append(upTo: nat) | Sync | Rename | SyncDir | Break | Cleanup(removes: bool)

  datatype Action = Start(dir: string, name: string, payload: string) | Act(writer: nat, op: Op)

  function Target(w: Writer): string { PathIn(w.dir, w.name) }

  function Temp(w: Writer, pid: nat): string { TempName(w.dir, w.name, pid, w.number) }

  /** The files and the writer after one system call of that writer; calls out of turn do nothing. */
  function ActOne(files: Files, pid: nat, w: Writer, op: Op): (Files, Writer) {
    var temp := Temp(w, pid);
    match op
    case Create =>
      if w.stage != Started then (files, w)
      else if temp in files then (files, w.(stage := Failing(false)))
      else (files[temp := ""], w.(stage := Writing(0)))
    case Append(upTo) =>
      if w.stage.Writing? && w.stage.done <= upTo <= |w.payload| && temp in files
      then (files[temp := w.payload[..upTo]], w.(stage := Writing(upTo))) else (files, w)
    case Sync => if w.stage == Writing(|w.payload|) then (files, w.(stage := Synced)) else (files, w)
    case Rename =>
      if w.stage == Synced && temp in files
      then ((files - {temp})[Target(w) := files[temp]], w.(stage := Renamed)) else (files, w)
    case SyncDir => if w.stage == Renamed then (files, w.(stage := Succeeded)) else (files, w)
    case Break =>
      if w.stage.Started? || w.stage.Writing? || w.stage.Synced? then (files, w.(stage := Failing(false)))
      else if w.stage == Renamed then (files, w.(stage := Failing(true)))
      else (files, w)
    case Cleanup(removes) =>
      if w.stage.Failing? then (if removes then files - {temp} else files, w.(stage := Failed(w.stage.renamed)))
      else (files, w)
  }

  function Step(s: System, a: Action): System {
    match a
    case Start(dir, name, payload) =>
      s.(counter := s.counter + 1, writers := s.writers + [Writer(dir, name, s.counter, payload, Started)])
    case Act(i, op) =>
      if i < |s.writers| then
        var (files, w) := ActOne(s.files, s.pid, s.writers[i], op);
        s.(files := files, writers := s.writers[i := w])
      else s
  }

  function Run(s: System, actions: seq<Action>): System {
    if actions == [] then s else Step(Run(s, actions[..|actions| - 1]), actions[|actions| - 1])
  }

  /** Callers never aim at a temporary name of this process. */
  ghost predicate ProperTargets(actions: seq<Action>, pid: nat) {
    forall k :: 0 <= k < |actions| && actions[k].Start? ==> !IsTempName(PathIn(actions[k].dir, actions[k].name), pid)
  }

  ghost predicate NumbersRise(s: System) {
    && (forall i :: 0 <= i < |s.writers| ==> s.writers[i].number < s.counter)
    && (forall i, j :: 0 <= i < j < |s.writers| ==> s.writers[i].number < s.writers[j].number)
  }

  /** A writer that has created its temporary file finds exactly its own prefix there. */
  ghost predicate TempIntact(files: Files, pid: nat, w: Writer) {
    && (w.stage.Writing? ==>
        Temp(w, pid) in files && w.stage.done <= |w.payload| && files[Temp(w, pid)] == w.payload[..w.stage.done])
    && (w.stage.Synced? ==> Temp(w, pid) in files && files[Temp(w, pid)] == w.payload)
  }

  ghost predicate HasRenamed(w: Writer) {
    w.stage.Renamed? || w.stage.Succeeded? || ((w.stage.Failing? || w.stage.Failed?) && w.stage.renamed)
  }

  /** The target holds what it held at first, or the whole payload of a call that renamed to it. */
  ghost predicate Whole(s: System, files0: Files, target: string) {
    || (target in files0 && target in s.files && s.files[target] == files0[target])
    || (target !in files0 && target !in s.files)
    || (exists i :: 0 <= i < |s.writers| && Target(s.writers[i]) == target && HasRenamed(s.writers[i]) &&
                    target in s.files && s.files[target] == s.writers[i].payload)
  }

  ghost predicate Inv(s: System) {
    && NumbersRise(s)
    && (forall i :: 0 <= i < |s.writers| ==> TempIntact(s.files, s.pid, s.writers[i]))
    && (forall i :: 0 <= i < |s.writers| ==> !IsTempName(Target(s.writers[i]), s.pid))
  }

  lemma TempIsTemp(w: Writer, pid: nat)
    ensures IsTempName(Temp(w, pid), pid)
  {}

  /** One writer's system call leaves every path alone but its own temporary name and target. */
  lemma ActTouches(files: Files, pid: nat, w: Writer, op: Op, path: string)
    requires path != Temp(w, pid) && path != Target(w)
    ensures var files' := ActOne(files, pid, w, op).0;
            (path in files' <==> path in files) && (path in files' ==> files'[path] == files[path])
  {}

  lemma ActKeepsOwn(files: Files, pid: nat, w: Writer, op: Op)
    requires TempIntact(files, pid, w) && !IsTempName(Target(w), pid)
    ensures var (files', w') := ActOne(files, pid, w, op);
            && TempIntact(files', pid, w')
            && w'.dir == w.dir && w'.name == w.name && w'.number == w.number && w'.payload == w.payload
            && (HasRenamed(w) ==> HasRenamed(w'))
            && (HasRenamed(w') && !HasRenamed(w) ==> Target(w) in files' && files'[Target(w)] == w.payload)
            && (HasRenamed(w') == HasRenamed(w) ==>
                  (Target(w) in files' <==> Target(w) in files) &&
                  (Target(w) in files' ==> files'[Target(w)] == files[Target(w)]))
  {
    TempIsTemp(w, pid);
    assert w.payload[..|w.payload|] == w.payload;
  }

  lemma StepKeepsInv(s: System, a: Action)
    requires Inv(s)
    requires a.Start? ==> !IsTempName(PathIn(a.dir, a.name), s.pid)
    ensures Inv(Step(s, a)) && Step(s, a).pid == s.pid
  {
    if a.Act? && a.writer < |s.writers| {
      var w := s.writers[a.writer];
      var (files, w') := ActOne(s.files, s.pid, w, a.op);
      ActKeepsOwn(s.files, s.pid, w, a.op);
      forall i | 0 <= i < |s.writers| && i != a.writer ensures TempIntact(files, s.pid, s.writers[i]) {
        var other := s.writers[i];
        TempNamesDiffer(other.dir, other.name, w.dir, w.name, s.pid, other.number, w.number);
        TempIsTemp(other, s.pid);
        ActTouches(s.files, s.pid, w, a.op, Temp(other, s.pid));
      }
    }
  }

  lemma StepKeepsWhole(s: System, a: Action, files0: Files, target: string)
    requires Inv(s) && Whole(s, files0, target) && !IsTempName(target, s.pid)
    ensures Whole(Step(s, a), files0, target)
  {
    var t := Step(s, a);
    if a.Act? && a.writer < |s.writers| {
      var w := s.writers[a.writer];
      ActKeepsOwn(s.files, s.pid, w, a.op);
      TempIsTemp(w, s.pid);
      if Target(w) != target {
        ActTouches(s.files, s.pid, w, a.op, target);
      }
      if Target(w) == target && HasRenamed(t.writers[a.writer]) && !HasRenamed(w) {
        assert Target(t.writers[a.writer]) == target;
      } else if i :| 0 <= i < |s.writers| && Target(s.writers[i]) == target && HasRenamed(s.writers[i]) &&
                     target in s.files && s.files[target] == s.writers[i].payload {
        assert Target(t.writers[i]) == target && HasRenamed(t.writers[i]);
      }
    } else if i :| 0 <= i < |s.writers| && Target(s.writers[i]) == target && HasRenamed(s.writers[i]) &&
                   target in s.files && s.files[target] == s.writers[i].payload {
      assert t.writers[i] == s.writers[i];
    }
  }

  /** At every moment of every interleaving, a target holds its first content or the whole
      payload of a call that has renamed to it, never a part or a mixture. */
  lemma {:induction false} TargetIsAlwaysWhole(files0: Files, pid: nat, counter: nat, actions: seq<Action>,
                                               target: string)
    requires ProperTargets(actions, pid) && !IsTempName(target, pid)
    ensures var s := Run(System(files0, pid, counter, []), actions);
            Inv(s) && s.pid == pid && Whole(s, files0, target)
  {
    if actions != [] {
      var n := |actions| - 1;
      assert ProperTargets(actions[..n], pid);
      TargetIsAlwaysWhole(files0, pid, counter, actions[..n], target);
      var s := Run(System(files0, pid, counter, []), actions[..n]);
      StepKeepsInv(s, actions[n]);
      StepKeepsWhole(s, actions[n], files0, target);
    }
  }

  lemma ActKeepsNumber(files: Files, pid: nat, w: Writer, op: Op)
    ensures ActOne(files, pid, w, op).1.number == w.number
  {}

  lemma StepKeepsNumbers(s: System, a: Action)
    requires NumbersRise(s)
    ensures NumbersRise(Step(s, a)) && Step(s, a).pid == s.pid
  {
    if a.Act? && a.writer < |s.writers| {
      ActKeepsNumber(s.files, s.pid, s.writers[a.writer], a.op);
      var t := Step(s, a);
      assert forall i :: 0 <= i < |s.writers| ==> t.writers[i].number == s.writers[i].number;
    }
  }

  lemma {:induction false} NumbersAlwaysRise(files0: Files, pid: nat, counter: nat, actions: seq<Action>)
    ensures var s := Run(System(files0, pid, counter, []), actions); NumbersRise(s) && s.pid == pid
  {
    if actions != [] {
      var n := |actions| - 1;
      NumbersAlwaysRise(files0, pid, counter, actions[..n]);
      StepKeepsNumbers(Run(System(files0, pid, counter, []), actions[..n]), actions[n]);
    }
  }

  /** In every interleaving, no two calls ever use the same temporary name. */
  lemma TempNamesAreNeverShared(files0: Files, pid: nat, counter: nat, actions: seq<Action>, i: nat, j: nat)
    requires i < j < |Run(System(files0, pid, counter, []), actions).writers|
    ensures var ws := Run(System(files0, pid, counter, []), actions).writers; Temp(ws[i], pid) != Temp(ws[j], pid)
  {
    NumbersAlwaysRise(files0, pid, counter, actions);
    var ws := Run(System(files0, pid, counter, []), actions).writers;
    TempNamesDiffer(ws[i].dir, ws[i].name, ws[j].dir, ws[j].name, pid, ws[i].number, ws[j].number);
  }

  /* ---- one call, start to end ---- */

  /** Left alone, the steps of a call do what `FileStore.WriteAndReplace` does without a fault. */
  lemma UndisturbedCallSucceeds(files: Files, pid: nat, w: Writer)
    requires w.stage == Started && Temp(w, pid) !in files && Temp(w, pid) != Target(w)
    ensures var (f1, w1) := ActOne(files, pid, w, Create);
            var (f2, w2) := ActOne(f1, pid, w1, Append(|w.payload|));
            var (f3, w3) := ActOne(f2, pid, w2, Sync);
            var (f4, w4) := ActOne(f3, pid, w3, Rename);
            ActOne(f4, pid, w4, SyncDir) == (files[Target(w) := w.payload], w.(stage := Succeeded))
  {
    var temp := Temp(w, pid);
    assert w.payload[..|w.payload|] == w.payload;
    assert files[temp := ""][temp := w.payload] == files[temp := w.payload];
    assert (files[temp := w.payload] - {temp})[Target(w) := w.payload] == files[Target(w) := w.payload];
  }

  /** Where the operating system lets one call fail. */
  datatype Fault = NoFault | AtCreate | AtWrite(written: nat) | AtSync | AtRename | AtDirectory

  class FileStore {
    var files: Files
    var counter: nat

    constructor (files: Files)
      ensures this.files == files && counter == 0
    {
      this.files, counter := files, 0;
    }

    /** `write_and_replace`. */
    method WriteAndReplace(temp: string, target: string, payload: string, fault: Fault) returns (ok: bool)
      requires temp != target
      modifies this`files
      ensures ok <==> fault == NoFault && temp !in old(files)
      ensures ok ==> files == old(files)[target := payload]
      ensures !ok && fault == AtDirectory && temp !in old(files) ==> files == old(files)[target := payload]
      ensures !ok && !(fault == AtDirectory && temp !in old(files)) ==> files - {temp} == old(files) - {temp}
    {
      if temp in files || fault == AtCreate { return false; }
      files := files[temp := ""];
      if fault.AtWrite? {
        files := files[temp := payload[..if fault.written <= |payload| then fault.written else |payload|]];
        return false;
      }
      files := files[temp := payload];
      if fault == AtSync || fault == AtRename { return false; }
      files := (files - {temp})[target := files[temp]];
      assert files == old(files)[target := payload];
      return fault == NoFault;
    }

    /** `atomic_write`: success means the new content and no leftover; an error means the old
        content, unless it was the directory that could not be opened or synced: then the new
        content is already in place. */
    method Write(dir: string, name: string, pid: nat, payload: string, fault: Fault, cleans: bool) returns (ok: bool)
      requires PathIn(dir, name) != TempName(dir, name, pid, counter)
      modifies this
      ensures counter == old(counter) + 1
      ensures ok <==> fault == NoFault && TempName(dir, name, pid, old(counter)) !in old(files)
      ensures !ok && cleans ==> TempName(dir, name, pid, old(counter)) !in files
      ensures ok ==> files == old(files)[PathIn(dir, name) := payload]
      ensures var temp := TempName(dir, name, pid, old(counter));
              !ok ==> files - {temp} ==
                      if fault == AtDirectory && temp !in old(files)
                      then (old(files) - {temp})[PathIn(dir, name) := payload] else old(files) - {temp}
    {
      var temp := TempName(dir, name, pid, counter);
      counter := counter + 1;
      ok := WriteAndReplace(temp, PathIn(dir, name), payload, fault);
      if !ok && cleans {
        files := files - {temp};
      }
    }
  }
}
