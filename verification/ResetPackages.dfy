/** Purging the packages the installer brought in, and keeping the certificate tools. */
module ResetPackages {
  import opened Options

  /* ---- the policy table ---- */

  datatype Kind = Package | Service

  datatype Disposition = DeleteAllowed | PreserveRequired | ConditionalPreserve

  datatype Matcher = Exact(value: string) | Prefix(value: string)

  datatype Policy = Policy(kind: Kind, matcher: Matcher, disposition: Disposition)

  const POLICIES := [
    Policy(Package, Exact("certbot"), PreserveRequired),
    Policy(Package, Exact("letsencrypt"), PreserveRequired),
    Policy(Package, Prefix("python3-certbot"), PreserveRequired),
    Policy(Service, Exact("certbot.timer"), PreserveRequired)]

  predicate Matches(m: Matcher, name: string) {
    match m
    case Exact(value) => name == value
    case Prefix(value) => value <= name
  }

  /** The first policy that matches decides. */
  function DispositionIn(policies: seq<Policy>, kind: Kind, name: string): Disposition {
    if policies == [] then DeleteAllowed
    else if policies[0].kind == kind && Matches(policies[0].matcher, name) then policies[0].disposition
    else DispositionIn(policies[1..], kind, name)
  }

  predicate Preserve(package: string) { DispositionIn(POLICIES, Package, package) == PreserveRequired }

  predicate PreserveService(service: string) { DispositionIn(POLICIES, Service, service) == PreserveRequired }

  lemma NextPolicy(k: nat, kind: Kind, name: string)
    requires k < |POLICIES|
    ensures DispositionIn(POLICIES[k..], kind, name) ==
            if POLICIES[k].kind == kind && Matches(POLICIES[k].matcher, name) then POLICIES[k].disposition
            else DispositionIn(POLICIES[k + 1..], kind, name)
  {
    assert POLICIES[k..][1..] == POLICIES[k + 1..];
  }

  lemma PolicyMeans(name: string)
    ensures Preserve(name) <==> name == "certbot" || name == "letsencrypt" || "python3-certbot" <= name
    ensures PreserveService(name) <==> name == "certbot.timer"
  {
    assert POLICIES[0..] == POLICIES;
    NextPolicy(0, Package, name);
    NextPolicy(1, Package, name);
    NextPolicy(2, Package, name);
    NextPolicy(3, Package, name);
    NextPolicy(0, Service, name);
    NextPolicy(1, Service, name);
    NextPolicy(2, Service, name);
    NextPolicy(3, Service, name);
  }

  /* ---- the package manager ---- */

  /** `halfway` packages are known to dpkg but not properly installed. */
  datatype Apt = Apt(installed: set<string>, halfway: set<string>, manual: set<string>)

  datatype Status = Installed | NotInstalled | Unknown

  /** Queries that cannot run, a failing `apt-mark`, a failing purge. */
  datatype Faults = Faults(queries: set<string>, marking: bool, purging: bool)

  function Query(w: Apt, faults: Faults, package: string): Option<Status> {
    if package in faults.queries then None
    else if package in w.installed then Some(Installed)
    else if package in w.halfway then Some(Unknown)
    else Some(NotInstalled)
  }

  /** What `apt-get purge --auto-remove` may leave: nothing it was told to purge, and everything
      else that is marked as installed by hand. */
  ghost predicate MayLeave(w: Apt, purge: seq<string>, left: set<string>) {
    (forall p :: p in purge ==> p !in left) && KeepsManual(w, purge, left)
  }

  /** The half of it that also holds of a purge that fails midway. */
  ghost predicate KeepsManual(w: Apt, purge: seq<string>, left: set<string>) {
    forall p :: p in w.installed && p in w.manual && p !in purge ==> p in left
  }

  function Leave(w: Apt, left: set<string>): Apt {
    w.(installed := w.installed * left, halfway := w.halfway * left)
  }

  /* ---- the plan ---- */

  datatype Outcome = Preserved | WouldPreserve | WouldPurge | Skipped | Purged

  datatype Action = Action(package: string, outcome: Outcome)

  datatype Result = Ok(actions: seq<Action>) | QueryFailed(package: string) | MarkFailed | PurgeFailed

  const CERTIFICATE_TOOLS: set<string> := {"certbot", "letsencrypt", "python3-certbot"}

  function Protected(packages: seq<string>): set<string> {
    CERTIFICATE_TOOLS + set p | p in packages && Preserve(p)
  }

  datatype Sifted = Sifted(actions: seq<Action>, purge: seq<string>)

  /** One package of the plan is preserved, announced, skipped or set aside for the purge. */
  function SiftOne(so: Sifted, package: string, dry: bool, status: Status): Sifted {
    if Preserve(package) then so.(actions := so.actions + [Action(package, if dry then WouldPreserve else Preserved)])
    else if dry then so.(actions := so.actions + [Action(package, WouldPurge)])
    else if status == NotInstalled then so.(actions := so.actions + [Action(package, Skipped)])
    else so.(purge := so.purge + [package])
  }

  predicate Asks(package: string, dry: bool) { !dry && !Preserve(package) }

  function Sift(w: Apt, faults: Faults, packages: seq<string>, dry: bool): (Sifted, Option<string>) {
    if packages == [] then (Sifted([], []), None)
    else
      var n := |packages| - 1;
      var (so, stuck) := Sift(w, faults, packages[..n], dry);
      if stuck.Some? then (so, stuck)
      else if Asks(packages[n], dry) && packages[n] in faults.queries then (so, Some(packages[n]))
      else
        var reply := Query(w, faults, packages[n]);
        (SiftOne(so, packages[n], dry, if reply.Some? then reply.value else Unknown), None)
  }

  function AllPurged(purge: seq<string>): seq<Action> {
    if purge == [] then [] else AllPurged(purge[..|purge| - 1]) + [Action(purge[|purge| - 1], Purged)]
  }

  function MarkManual(w: Apt, names: set<string>): Apt { w.(manual := w.manual + names) }

  function ToMark(w: Apt, packages: seq<string>): set<string> { Protected(packages) * w.installed }

  /* ---- the code ---- */

  class AptHost {
    var apt: Apt
    const faults: Faults

    constructor (apt: Apt, faults: Faults)
      ensures this.apt == apt && this.faults == faults
    {
      this.apt, this.faults := apt, faults;
    }

    method PackageStatus(package: string) returns (reply: Option<Status>)
      ensures reply == Query(apt, faults, package)
    {
      reply := Query(apt, faults, package);
    }

    method Mark(names: set<string>) returns (ok: bool)
      modifies this
      ensures ok == !faults.marking
      ensures apt == if ok then MarkManual(old(apt), names) else old(apt)
    {
      ok := !faults.marking;
      if ok { apt := MarkManual(apt, names); }
    }

    /** `left` is what the package manager decides to leave, also when it fails midway. */
    method Purge(purge: seq<string>, left: set<string>) returns (ok: bool)
      modifies this
      ensures ok == !faults.purging
      ensures apt == Leave(old(apt), left)
    {
      ok := !faults.purging;
      apt := Leave(apt, left);
    }

    /** The protected packages that are installed. */
    method InstalledProtected(packages: seq<string>) returns (found: set<string>, stuck: Option<string>)
      ensures stuck.None? ==> found == ToMark(apt, packages) && Protected(packages) !! faults.queries
      ensures stuck.Some? ==> stuck.value in Protected(packages) && stuck.value in faults.queries
    {
      found, stuck := {}, None;
      var rest := Protected(packages);
      while rest != {}
        invariant rest <= Protected(packages)
        invariant found == (Protected(packages) - rest) * apt.installed
        invariant (Protected(packages) - rest) !! faults.queries
        decreases |rest|
      {
        var p :| p in rest;
        var reply := PackageStatus(p);
        if reply.None? { return found, Some(p); }
        if reply == Some(Installed) { found := found + {p}; }
        rest := rest - {p};
      }
    }

    /** The loop over the plan. */
    method SiftPlan(packages: seq<string>, dry: bool) returns (so: Sifted, stuck: Option<string>)
      ensures (so, stuck) == Sift(apt, faults, packages, dry)
    {
      so, stuck := Sifted([], []), None;
      for i := 0 to |packages|
        invariant (so, stuck) == Sift(apt, faults, packages[..i], dry) && stuck.None?
      {
        assert packages[..i + 1][..i] == packages[..i];
        var status := Unknown;
        if Asks(packages[i], dry) {
          var reply := PackageStatus(packages[i]);
          if reply.None? {
            stuck := Some(packages[i]);
            StuckStays(apt, faults, packages, dry, i + 1);
            return;
          }
          status := reply.value;
        }
        so := SiftOne(so, packages[i], dry, status);
      }
      assert packages[..|packages|] == packages;
    }

    /** `reset_packages`. */
    method ResetPackages(packages: seq<string>, dry: bool, left: set<string>) returns (r: Result)
      modifies this
      ensures Ends(old(apt), faults, packages, dry, left, r, apt)
    {
      var so, stuck := SiftPlan(packages, dry);
      if stuck.Some? { return QueryFailed(stuck.value); }
      if so.purge == [] { return Ok(so.actions); }
      var found, unknown := InstalledProtected(packages);
      if unknown.Some? { return QueryFailed(unknown.value); }
      if found != {} {
        var marked := Mark(found);
        if !marked { return MarkFailed; }
      }
      var purged := Purge(so.purge, left);
      if !purged { return PurgeFailed; }
      var actions := so.actions;
      for i := 0 to |so.purge|
        invariant actions == so.actions + AllPurged(so.purge[..i])
      {
        assert so.purge[..i + 1][..i] == so.purge[..i];
        actions := actions + [Action(so.purge[i], Purged)];
      }
      assert so.purge[..|so.purge|] == so.purge;
      return Ok(actions);
    }
  }

  /** Once a query has failed, the rest of the plan is not looked at. */
  lemma {:induction false} StuckStays(w: Apt, faults: Faults, packages: seq<string>, dry: bool, n: nat)
    requires n <= |packages| && Sift(w, faults, packages[..n], dry).1.Some?
    ensures Sift(w, faults, packages, dry) == Sift(w, faults, packages[..n], dry)
    decreases |packages|
  {
    if n < |packages| {
      var m := |packages| - 1;
      assert packages[..m][..n] == packages[..n];
      StuckStays(w, faults, packages[..m], dry, n);
    } else {
      assert packages[..n] == packages;
    }
  }

  /** How a call ends, with the packages as it leaves them. */
  ghost predicate Ends(w: Apt, faults: Faults, packages: seq<string>, dry: bool, left: set<string>, r: Result,
                       w': Apt) {
    var (so, stuck) := Sift(w, faults, packages, dry);
    if stuck.Some? then r == QueryFailed(stuck.value) && w' == w
    else if so.purge == [] then r == Ok(so.actions) && w' == w
    else if exists p :: p in Protected(packages) && p in faults.queries then
      r.QueryFailed? && r.package in Protected(packages) && r.package in faults.queries && w' == w
    else if ToMark(w, packages) != {} && faults.marking then r == MarkFailed && w' == w
    else
      && w' == Leave(MarkManual(w, ToMark(w, packages)), left)
      && r == (if faults.purging then PurgeFailed else Ok(so.actions + AllPurged(so.purge)))
  }

  /* ---- every package once ---- */

  function Names(actions: seq<Action>): seq<string> {
    if actions == [] then [] else Names(actions[..|actions| - 1]) + [actions[|actions| - 1].package]
  }

  /** The packages that met one outcome, in order. */
  function Select(actions: seq<Action>, outcome: Outcome): seq<string> {
    if actions == [] then []
    else
      var last := actions[|actions| - 1];
      Select(actions[..|actions| - 1], outcome) + (if last.outcome == outcome then [last.package] else [])
  }

  /** The plan's packages with the policy's answer `keep`. */
  function Keeping(packages: seq<string>, keep: bool): seq<string> {
    if packages == [] then []
    else
      var last := packages[|packages| - 1];
      Keeping(packages[..|packages| - 1], keep) + (if Preserve(last) == keep then [last] else [])
  }

  lemma OneMore(actions: seq<Action>, a: Action)
    ensures Names(actions + [a]) == Names(actions) + [a.package]
    ensures forall o :: Select(actions + [a], o) == Select(actions, o) + if a.outcome == o then [a.package] else []
  {
    assert (actions + [a])[..|actions|] == actions;
  }

  lemma OneMorePurged(actions: seq<Action>, init: seq<string>, last: string)
    ensures actions + AllPurged(init + [last]) == (actions + AllPurged(init)) + [Action(last, Purged)]
  {
    assert (init + [last])[..|init|] == init;
  }

  lemma {:induction false} NamesOfPurged(actions: seq<Action>, purge: seq<string>)
    ensures Names(actions + AllPurged(purge)) == Names(actions) + purge
  {
    if purge == [] {
      assert actions + AllPurged(purge) == actions;
    } else {
      var init, last := purge[..|purge| - 1], purge[|purge| - 1];
      assert purge == init + [last];
      NamesOfPurged(actions, init);
      OneMorePurged(actions, init, last);
      OneMore(actions + AllPurged(init), Action(last, Purged));
    }
  }

  lemma {:induction false} SelectPurged(actions: seq<Action>, purge: seq<string>, o: Outcome)
    ensures Select(actions + AllPurged(purge), o) == Select(actions, o) + if o == Purged then purge else []
  {
    if purge == [] {
      assert actions + AllPurged(purge) == actions;
    } else {
      var init, last := purge[..|purge| - 1], purge[|purge| - 1];
      assert purge == init + [last];
      SelectPurged(actions, init, o);
      OneMorePurged(actions, init, last);
      OneMore(actions + AllPurged(init), Action(last, Purged));
    }
  }

  lemma LastOf(packages: seq<string>)
    requires packages != []
    ensures multiset(packages) == multiset(packages[..|packages| - 1]) + multiset{packages[|packages| - 1]}
  {
    assert packages == packages[..|packages| - 1] + [packages[|packages| - 1]];
  }

  ghost function Counted(so: Sifted): multiset<string> { multiset(Names(so.actions)) + multiset(so.purge) }

  ghost function Settled(so: Sifted): multiset<string> { multiset(Select(so.actions, Skipped)) + multiset(so.purge) }

  lemma Appended(names: seq<string>, name: string)
    ensures multiset(names + [name]) == multiset(names) + multiset{name}
  {}

  lemma SiftOneCounts(so: Sifted, package: string, dry: bool, status: Status)
    ensures Counted(SiftOne(so, package, dry, status)) == Counted(so) + multiset{package}
  {
    var keeps, so' := Preserve(package), SiftOne(so, package, dry, status);
    if keeps || dry || status == NotInstalled {
      var a := Action(package, if keeps then (if dry then WouldPreserve else Preserved)
                               else if dry then WouldPurge else Skipped);
      OneMore(so.actions, a);
      Appended(Names(so.actions), package);
      assert Names(so'.actions) == Names(so.actions) + [package] && so'.purge == so.purge;
    } else {
      Appended(so.purge, package);
      assert so'.actions == so.actions && so'.purge == so.purge + [package];
    }
  }

  lemma SiftOneSettles(so: Sifted, package: string, status: Status)
    ensures var so', keeps := SiftOne(so, package, false, status), Preserve(package);
            && Select(so'.actions, Preserved) == Select(so.actions, Preserved) + (if keeps then [package] else [])
            && Select(so'.actions, Purged) == Select(so.actions, Purged)
            && Settled(so') == Settled(so) + (if keeps then multiset{} else multiset{package})
  {
    if Preserve(package) {
      OneMore(so.actions, Action(package, Preserved));
    } else if status == NotInstalled {
      OneMore(so.actions, Action(package, Skipped));
    }
  }

  lemma SiftNext(w: Apt, faults: Faults, packages: seq<string>, dry: bool) returns (status: Status)
    requires packages != [] && Sift(w, faults, packages, dry).1.None?
    ensures var n := |packages| - 1;
            && Sift(w, faults, packages[..n], dry).1.None?
            && Sift(w, faults, packages, dry).0 ==
               SiftOne(Sift(w, faults, packages[..n], dry).0, packages[n], dry, status)
  {
    var reply := Query(w, faults, packages[|packages| - 1]);
    status := if reply.Some? then reply.value else Unknown;
  }

  lemma {:induction false} SiftPartitions(w: Apt, faults: Faults, packages: seq<string>, dry: bool)
    requires Sift(w, faults, packages, dry).1.None?
    ensures Counted(Sift(w, faults, packages, dry).0) == multiset(packages)
  {
    if packages != [] {
      var n := |packages| - 1;
      var status := SiftNext(w, faults, packages, dry);
      SiftPartitions(w, faults, packages[..n], dry);
      SiftOneCounts(Sift(w, faults, packages[..n], dry).0, packages[n], dry, status);
      LastOf(packages);
    }
  }

  /** A reset that succeeds reports every occurrence in the plan exactly once. */
  lemma EveryPackageOnce(w: Apt, faults: Faults, packages: seq<string>, dry: bool, left: set<string>, r: Result,
                         w': Apt)
    requires Ends(w, faults, packages, dry, left, r, w') && r.Ok?
    ensures multiset(Names(r.actions)) == multiset(packages)
  {
    SucceedingActions(w, faults, packages, dry, left, r, w');
    SiftPartitions(w, faults, packages, dry);
    var so := Sift(w, faults, packages, dry).0;
    NamesOfPurged(so.actions, so.purge);
  }

  /* ---- the dry run ---- */

  lemma {:induction false} DrySift(w: Apt, faults: Faults, packages: seq<string>)
    ensures var (so, stuck) := Sift(w, faults, packages, true);
            && stuck.None? && so.purge == []
            && Select(so.actions, WouldPreserve) == Keeping(packages, true)
            && Select(so.actions, WouldPurge) == Keeping(packages, false)
  {
    if packages != [] {
      var n := |packages| - 1;
      DrySift(w, faults, packages[..n]);
      var so := Sift(w, faults, packages[..n], true).0;
      OneMore(so.actions, Action(packages[n], if Preserve(packages[n]) then WouldPreserve else WouldPurge));
    }
  }

  lemma {:induction false} RealSift(w: Apt, faults: Faults, packages: seq<string>)
    requires Sift(w, faults, packages, false).1.None?
    ensures var so := Sift(w, faults, packages, false).0;
            && Select(so.actions, Preserved) == Keeping(packages, true)
            && Select(so.actions, Purged) == []
            && Settled(so) == multiset(Keeping(packages, false))
  {
    if packages != [] {
      var n := |packages| - 1;
      var status := SiftNext(w, faults, packages, false);
      RealSift(w, faults, packages[..n]);
      SiftOneSettles(Sift(w, faults, packages[..n], false).0, packages[n], status);
    }
  }

  lemma SucceedingActions(w: Apt, faults: Faults, packages: seq<string>, dry: bool, left: set<string>, r: Result,
                          w': Apt)
    requires Ends(w, faults, packages, dry, left, r, w') && r.Ok?
    ensures var (so, stuck) := Sift(w, faults, packages, dry);
            stuck.None? && r.actions == so.actions + AllPurged(so.purge)
  {
    var so := Sift(w, faults, packages, dry).0;
    assert so.purge == [] ==> so.actions + AllPurged(so.purge) == so.actions;
  }

  lemma DryEnd(w: Apt, faults: Faults, packages: seq<string>, left: set<string>, r: Result, w': Apt)
    requires Ends(w, faults, packages, true, left, r, w')
    ensures r == Ok(Sift(w, faults, packages, true).0.actions) && w' == w
  {
    DrySift(w, faults, packages);
  }

  lemma RealEnd(w: Apt, faults: Faults, packages: seq<string>, left: set<string>, r: Result, w': Apt)
    requires Ends(w, faults, packages, false, left, r, w') && r.Ok?
    ensures Select(r.actions, Preserved) == Keeping(packages, true)
    ensures multiset(Select(r.actions, Purged)) + multiset(Select(r.actions, Skipped)) ==
            multiset(Keeping(packages, false))
  {
    var so := Sift(w, faults, packages, false).0;
    SucceedingActions(w, faults, packages, false, left, r, w');
    RealSift(w, faults, packages);
    SelectPurged(so.actions, so.purge, Preserved);
    SelectPurged(so.actions, so.purge, Skipped);
    SelectPurged(so.actions, so.purge, Purged);
    assert Select(r.actions, Purged) == so.purge;
  }

  /** The dry run asks nothing, changes nothing, and foretells a successful reset: the same packages
      are preserved, and those it would purge are the ones purged or no longer there. */
  lemma DryRunForetells(w: Apt, faults: Faults, packages: seq<string>, left: set<string>, left': set<string>,
                        dry: Result, afterDry: Apt, r: Result, after: Apt)
    requires Ends(w, faults, packages, true, left, dry, afterDry)
    requires Ends(w, faults, packages, false, left', r, after) && r.Ok?
    ensures dry.Ok? && afterDry == w
    ensures Select(r.actions, Preserved) == Select(dry.actions, WouldPreserve)
    ensures multiset(Select(r.actions, Purged)) + multiset(Select(r.actions, Skipped)) ==
            multiset(Select(dry.actions, WouldPurge))
  {
    DryEnd(w, faults, packages, left, dry, afterDry);
    DrySift(w, faults, packages);
    RealEnd(w, faults, packages, left', r, after);
  }

  /* ---- what survives ---- */

  lemma {:induction false} PurgeMeans(w: Apt, faults: Faults, packages: seq<string>, q: string)
    requires Sift(w, faults, packages, false).1.None?
    ensures q in Sift(w, faults, packages, false).0.purge <==>
            q in packages && !Preserve(q) && (q in w.installed || q in w.halfway)
  {
    if packages != [] {
      var n := |packages| - 1;
      PurgeMeans(w, faults, packages[..n], q);
      assert packages == packages[..n] + [packages[n]];
    }
  }

  /** Every certificate tool that was installed is installed afterwards, whatever apt removes along
      with the purge and wherever the reset fails, if it is one of the three named tools or the
      plan names it. */
  lemma ProtectedSurvive(w: Apt, faults: Faults, packages: seq<string>, dry: bool, left: set<string>, r: Result,
                         w': Apt, p: string)
    requires Ends(w, faults, packages, dry, left, r, w')
    requires KeepsManual(MarkManual(w, ToMark(w, packages)), Sift(w, faults, packages, dry).0.purge, left)
    requires p in Protected(packages) && p in w.installed
    ensures p in w'.installed
  {
    PolicyMeans(p);
    var (so, stuck) := Sift(w, faults, packages, dry);
    if dry {
      DrySift(w, faults, packages);
    } else if stuck.None? {
      PurgeMeans(w, faults, packages, p);
    }
  }

  const NO_FAULTS := Faults({}, false, false)

  lemma {:induction false} NeverStuck(w: Apt, packages: seq<string>, dry: bool)
    ensures Sift(w, NO_FAULTS, packages, dry).1.None?
  {
    if packages != [] { NeverStuck(w, packages[..|packages| - 1], dry); }
  }

  /** After a real reset without faults every way apt may go leaves `p` installed. */
  ghost predicate AlwaysSurvives(w: Apt, packages: seq<string>, p: string) {
    forall left, r, w' ::
      MayLeave(MarkManual(w, ToMark(w, packages)), Sift(w, NO_FAULTS, packages, false).0.purge, left) ==>
      Ends(w, NO_FAULTS, packages, false, left, r, w') ==> p in w'.installed
  }

  /** Nothing in the plan is both purgeable and there. */
  predicate NothingToPurge(w: Apt, packages: seq<string>) {
    forall q :: q in packages ==> Preserve(q) || (q !in w.installed && q !in w.halfway)
  }

  /** An installed package that the policy preserves is safe exactly when it is one of the three
      named tools, or the plan names it, or it was already marked as installed by hand, or there is
      nothing to purge: a certbot plugin that came as a dependency can be removed. */
  lemma PreservedSurvivesIff(w: Apt, packages: seq<string>, p: string)
    requires Preserve(p) && p in w.installed
    ensures AlwaysSurvives(w, packages, p) <==>
            p in CERTIFICATE_TOOLS || p in packages || p in w.manual || NothingToPurge(w, packages)
  {
    NeverStuck(w, packages, false);
    var purge, marked := Sift(w, NO_FAULTS, packages, false).0.purge, MarkManual(w, ToMark(w, packages));
    forall q ensures q in purge <==> q in packages && !Preserve(q) && (q in w.installed || q in w.halfway) {
      PurgeMeans(w, NO_FAULTS, packages, q);
    }
    assert purge != [] ==> purge[0] in purge;
    if !NothingToPurge(w, packages) {
      var q :| q in packages && !Preserve(q) && (q in w.installed || q in w.halfway);
      assert q in purge;
      if p !in CERTIFICATE_TOOLS && p !in packages && p !in w.manual {
        var left := set k | k in w.installed && k in marked.manual && k !in purge;
        var w' := Leave(marked, left);
        assert MayLeave(marked, purge, left);
        assert Ends(w, NO_FAULTS, packages, false, left,
                    Ok(Sift(w, NO_FAULTS, packages, false).0.actions + AllPurged(purge)), w');
        assert p !in w'.installed;
      }
    }
  }

  lemma SiftInstalled(w: Apt, packages: seq<string>, last: string, so: Sifted)
    requires last in w.installed && Sift(w, NO_FAULTS, packages, false) == (so, None)
    ensures Sift(w, NO_FAULTS, packages + [last], false) == (SiftOne(so, last, false, Installed), None)
  {
    assert (packages + [last])[..|packages|] == packages;
  }

  lemma SiftOfTwo(w: Apt, gone: string, kept: string)
    requires !Preserve(gone) && gone in w.installed && Preserve(kept) && kept in w.installed
    ensures Sift(w, NO_FAULTS, [gone, kept], false) == (Sifted([Action(kept, Preserved)], [gone]), None)
  {
    SiftInstalled(w, [], gone, Sifted([], []));
    assert [] + [gone] == [gone] && [gone] + [kept] == [gone, kept];
    SiftInstalled(w, [gone], kept, Sifted([], [gone]));
    assert [] + [Action(kept, Preserved)] == [Action(kept, Preserved)];
  }

  lemma TwoAreMarked(w: Apt, gone: string, kept: string, plugin: string)
    requires w.installed == {gone, kept, plugin} && w.manual == {gone, kept}
    requires !Preserve(gone) && plugin !in CERTIFICATE_TOOLS && plugin != kept
    ensures MarkManual(w, ToMark(w, [gone, kept])).manual == {gone, kept}
  {
    assert forall p :: p in ToMark(w, [gone, kept]) ==> p == gone || p == kept || p == plugin;
  }

  /** `plugin` came along with `gone` and goes along with it. */
  lemma TakenAlong(w: Apt, gone: string, kept: string, plugin: string)
    requires w == Apt({gone, kept, plugin}, {}, {gone, kept})
    requires !Preserve(gone) && Preserve(kept) && Preserve(plugin) && plugin != kept && plugin !in CERTIFICATE_TOOLS
    ensures MayLeave(MarkManual(w, ToMark(w, [gone, kept])), [gone], {kept})
    ensures Ends(w, NO_FAULTS, [gone, kept], false, {kept}, Ok([Action(kept, Preserved), Action(gone, Purged)]),
                 Apt({kept}, {}, {gone, kept}))
  {
    SiftOfTwo(w, gone, kept);
    TwoAreMarked(w, gone, kept, plugin);
    assert AllPurged([gone]) == [Action(gone, Purged)];
    assert Leave(MarkManual(w, ToMark(w, [gone, kept])), {kept}) == Apt({kept}, {}, {gone, kept});
  }

  lemma NotSafe(w: Apt, gone: string, kept: string, plugin: string)
    requires w == Apt({gone, kept, plugin}, {}, {gone, kept})
    requires !Preserve(gone) && Preserve(plugin) && plugin != kept && plugin !in CERTIFICATE_TOOLS
    ensures !AlwaysSurvives(w, [gone, kept], plugin)
  {
    PreservedSurvivesIff(w, [gone, kept], plugin);
    assert gone in [gone, kept];
  }

  const PLUGIN := "python3-certbot-nginx"

  lemma PolicyOfThree()
    ensures Preserve(PLUGIN) && Preserve("certbot") && !Preserve("nginx")
  {
    PolicyMeans(PLUGIN);
    PolicyMeans("certbot");
    PolicyMeans("nginx");
    assert PLUGIN[..15] == "python3-certbot";
  }

  /** Such a plugin: it came with nginx, the plan names nginx and certbot only, and the purge of nginx
      takes it along. The reset reports success. */
  lemma PluginIsLost()
    ensures var w, plan := Apt({"nginx", "certbot", PLUGIN}, {}, {"nginx", "certbot"}), ["nginx", "certbot"];
            && Preserve(PLUGIN) && !AlwaysSurvives(w, plan, PLUGIN)
            && MayLeave(MarkManual(w, ToMark(w, plan)), ["nginx"], {"certbot"})
            && Ends(w, NO_FAULTS, plan, false, {"certbot"}, Ok([Action("certbot", Preserved), Action("nginx", Purged)]),
                    Apt({"certbot"}, {}, {"nginx", "certbot"}))
  {
    PolicyOfThree();
    assert |PLUGIN| == 21;
    var w := Apt({"nginx", "certbot", PLUGIN}, {}, {"nginx", "certbot"});
    TakenAlong(w, "nginx", "certbot", PLUGIN);
    NotSafe(w, "nginx", "certbot", PLUGIN);
  }
}
