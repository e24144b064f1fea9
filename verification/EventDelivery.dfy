/** When a browser misses nothing, exactly: over every serialised run, with any losses on its connections. */
module EventDelivery {
  import opened EventProofs
  import opened EventProtocol
  import opened Numbers
  import opened Options

  /** How many messages of the current connection were written before its socket first left something
      out: at a replay or a refill that comes too late, or at an announcement that is not the next event. */
  function SoundPart(s: System, actions: seq<Action>): Option<nat> {
    if actions == [] then None
    else
      var n := |actions| - 1;
      SoundAfter(Run(s, actions[..n]), actions[n], SoundPart(s, actions[..n]))
  }

  function SoundAfter(u: System, a: Action, sound: Option<nat>): Option<nat> {
    if Renews(u, a) then None
    else if sound.None? && !Keeps(u, a) then Some(|u.conn.wire|)
    else sound
  }

  /** The browser receives nothing the socket wrote after leaving something out. */
  predicate TakesSound(u: System, a: Action, sound: Option<nat>) {
    a.Receive? && u.inflight != [] && sound.Some? ==> |u.conn.wire| < sound.value + |u.inflight|
  }

  predicate OnlySoundReceived(s: System, actions: seq<Action>) {
    actions == [] ||
    var n := |actions| - 1;
    OnlySoundReceived(s, actions[..n]) && TakesSound(Run(s, actions[..n]), actions[n], SoundPart(s, actions[..n]))
  }

  /* ---- what was delivered, in any interleaving ---- */

  /** As many events were delivered as the browser has moved on. */
  predicate Full(b: Browser, b0: nat) {
    b.lastSeq == b0 + |b.delivered|
  }

  /** The next message leaves out at least one event the browser has not seen. */
  predicate Jumps(s: System, a: Action) {
    a.Receive? && s.inflight != [] && s.inflight[0].id > s.browser.lastSeq + 1
  }

  lemma FullMeans(s: System, b0: nat)
    requires SafeInv(s, b0) && b0 <= |s.hub.log|
    ensures b0 + |s.browser.delivered| <= s.browser.lastSeq <= |s.hub.log|
    ensures (Full(s.browser, b0) <==> s.browser.delivered == s.hub.log[b0..s.browser.lastSeq])
  {
    var d := s.browser.delivered;
    if d != [] {
      RisingAtLeast(d, b0, |d| - 1);
      assert Genuine(d[|d| - 1], s.hub.log);
    }
    if Full(s.browser, b0) {
      RisingFills(d, s.hub.log, b0);
    }
  }

  /** A browser that has missed something never makes up for it. */
  lemma FullStep(s: System, a: Action, b0: nat)
    requires SafeInv(s, b0) && b0 <= |s.hub.log|
    ensures Full(Step(s, a).browser, b0) <==> Full(s.browser, b0) && !Jumps(s, a)
  {
    FullMeans(s, b0);
    if a.Receive? && s.inflight != [] {
      assert Genuine(s.inflight[0], s.hub.log);
    }
  }

  predicate NeverJumps(s: System, actions: seq<Action>) {
    actions == [] ||
    var n := |actions| - 1;
    NeverJumps(s, actions[..n]) && !Jumps(Run(s, actions[..n]), actions[n])
  }

  lemma PublishLogsMore(h: Hub, body: string)
    ensures h.log <= Publish(h, body).log
  {}

  lemma {:induction false} LogGrows(s: System, actions: seq<Action>)
    ensures s.hub.log <= Run(s, actions).hub.log
  {
    if actions != [] {
      var n := |actions| - 1;
      LogGrows(s, actions[..n]);
      PublishLogsMore(Run(s, actions[..n]).hub, if actions[n].PublishWhole? then actions[n].body else CONNECTED);
    }
  }

  /** However publishers, socket turns, losses and reconnects interleave, the callback has seen every
      event between the browser's first and last position iff every message the browser received was
      numbered no more than one above its position. */
  lemma {:induction false} MissesNothingIffNoJump(s: System, actions: seq<Action>)
    requires Start(s)
    ensures var t, b0 := Run(s, actions), s.browser.lastSeq;
            && b0 <= t.browser.lastSeq <= |t.hub.log|
            && (Full(t.browser, b0) <==> NeverJumps(s, actions))
            && (t.browser.delivered == t.hub.log[b0..t.browser.lastSeq] <==> NeverJumps(s, actions))
  {
    var b0 := s.browser.lastSeq;
    if actions != [] {
      var n := |actions| - 1;
      var u := Run(s, actions[..n]);
      MissesNothingIffNoJump(s, actions[..n]);
      StartIsSafe(s);
      SafeRun(s, actions[..n], b0);
      FullStep(u, actions[n], b0);
    }
    LogGrows(s, actions);
    StartIsSafe(s);
    SafeRun(s, actions, b0);
    FullMeans(Run(s, actions), b0);
  }

  /* ---- connections without a loss so far ---- */

  /** The browser is not ahead of what its connection has written, or is going to write of a replay. */
  ghost predicate NotAhead(s: System) {
    var k := s.conn;
    && (k.phase == Replaying ==> s.browser.lastSeq <= k.base + |k.wire| + |k.backlog|)
    && (Live(k.phase) ==> s.browser.lastSeq <= k.lastSeq)
  }

  /** Without losses a live socket stands where its wire ends. */
  lemma LiveStands(h: Hub, k: Conn)
    requires SerialHub(h) && ConnInv(h, k) && Live(k.phase) && k.windowLoss == k.trimLoss == 0
    ensures k.lastSeq == k.base + |k.wire|
  {
    StretchOfLog(h, k);
    assert k.wire[|k.wire| - 1] == h.log[k.base + |k.wire| - 1];
  }

  lemma FetchedIsLater(h: Hub, k: Conn)
    requires LiveInv(h, k) && k.backlog != []
    ensures k.backlog[0].id > k.lastSeq
  {
    assert (k.wire + k.backlog)[|k.wire| - 1] == k.wire[|k.wire| - 1];
    assert (k.wire + k.backlog)[|k.wire|] == k.backlog[0];
  }

  lemma LiveTurnRises(h: Hub, k: Conn)
    requires LiveInv(h, k) && Live(k.phase)
    ensures TaskTurn(h, k).conn.lastSeq >= k.lastSeq && !TaskTurn(h, k).conn.phase.Replaying?
  {
    if k.phase == Refilling && k.backlog != [] { FetchedIsLater(h, k); }
  }

  lemma NotAheadTask(s: System, b0: nat)
    requires SerialHub(s.hub) && ConnInv(s.hub, s.conn) && InStep(s, b0) && Keeps(s, TaskStep) && NotAhead(s)
    ensures NotAhead(Step(s, TaskStep))
  {
    TaskStepMeans(s);
    if s.conn.phase == Subscribed {
      ReplayFetches(s.hub, s.conn);
    } else if s.conn.phase == Replaying && s.conn.backlog == [] {
      PublishSerial(s.hub, CONNECTED);
    } else if Live(s.conn.phase) {
      LiveTurnRises(s.hub, s.conn);
    }
  }

  lemma NotAheadReceive(s: System, b0: nat)
    requires SerialHub(s.hub) && ConnInv(s.hub, s.conn) && InStep(s, b0) && NotAhead(s)
    ensures NotAhead(Step(s, Receive)) && !Jumps(s, Receive)
  {
    if s.inflight != [] {
      NextInFlight(s, b0);
      if Live(s.conn.phase) { LiveStands(s.hub, s.conn); }
    }
  }

  /* ---- connections that have lost something ---- */

  /** The first `p` messages were sound. The browser has received no more than those, and message `p`,
      written or still to be written, is beyond what follows them. */
  ghost predicate Behind(s: System, b0: nat, p: nat) {
    var k, last := s.conn, s.browser.lastSeq;
    && b0 <= last <= |s.hub.log| && s.browser.delivered == s.hub.log[b0..last]
    && EndOf(k.wire, s.inflight) && |k.wire| - |s.inflight| <= p <= |k.wire|
    && !k.phase.Down? && !k.phase.Subscribed?
    && (if |k.wire| < p + |s.inflight| then SoundStretch(s, p) && GapAfter(k, p, k.base + p)
        else GapAfter(k, p, last))
  }

  ghost predicate SoundStretch(s: System, p: nat)
    requires p <= |s.conn.wire| && |s.inflight| <= |s.conn.wire|
  {
    var k, last := s.conn, s.browser.lastSeq;
    && k.base + p <= |s.hub.log| && k.wire[..p] == s.hub.log[k.base..k.base + p]
    && k.base + |k.wire| - |s.inflight| <= last <= k.base + p
  }

  ghost predicate GapAfter(k: Conn, p: nat, top: nat)
    requires p <= |k.wire|
  {
    if p < |k.wire| then k.wire[p].id > top + 1
    else (k.phase == Replaying || k.phase == Refilling) && k.backlog != [] && k.backlog[0].id > top + 1
  }

  lemma BehindReceive(s: System, b0: nat, p: nat)
    requires NumberedFromOne(s.hub.log) && Behind(s, b0, p)
    ensures !Jumps(s, Receive) <==> TakesSound(s, Receive, Some(p))
    ensures !Jumps(s, Receive) ==> Behind(Step(s, Receive), b0, p)
  {
    if s.inflight != [] {
      var k, r := s.conn, |s.conn.wire| - |s.inflight|;
      assert s.inflight[0] == k.wire[r] && s.inflight[1..] == k.wire[r + 1..];
      if r < p {
        assert k.wire[r] == k.wire[..p][r] == s.hub.log[k.base + r];
        DeliverNext(s, b0);
      }
    }
  }

  lemma DeliverNext(s: System, b0: nat)
    requires NumberedFromOne(s.hub.log) && b0 <= s.browser.lastSeq <= |s.hub.log|
    requires s.browser.delivered == s.hub.log[b0..s.browser.lastSeq]
    requires s.inflight != [] && Genuine(s.inflight[0], s.hub.log) && s.inflight[0].id <= s.browser.lastSeq + 1
    ensures var b := Step(s, Receive).browser;
            && b.lastSeq == Max(s.browser.lastSeq, s.inflight[0].id)
            && b0 <= b.lastSeq <= |s.hub.log| && b.delivered == s.hub.log[b0..b.lastSeq]
  {
    if s.inflight[0].id == s.browser.lastSeq + 1 {
      assert s.hub.log[b0..s.browser.lastSeq + 1] == s.hub.log[b0..s.browser.lastSeq] + [s.inflight[0]];
    }
  }

  /** Writing more does not change what the browser may still receive without a gap. */
  lemma BehindWritten(s: System, t: System, out: seq<Event>, b0: nat, p: nat)
    requires Behind(s, b0, p) && t.browser == s.browser && s.hub.log <= t.hub.log
    requires t.conn.wire == s.conn.wire + out && t.inflight == s.inflight + out
    requires t.conn.base == s.conn.base && !t.conn.phase.Down? && !t.conn.phase.Subscribed?
    requires |s.conn.wire| == p ==> t.conn == s.conn || (s.conn.backlog != [] && out == [s.conn.backlog[0]])
    ensures Behind(t, b0, p)
  {
    var k, last := s.conn, s.browser.lastSeq;
    assert t.hub.log[b0..last] == s.hub.log[b0..last];
    assert t.conn.wire[..p] == k.wire[..p];
    if |k.wire| < p + |s.inflight| {
      assert t.hub.log[k.base..k.base + p] == s.hub.log[k.base..k.base + p];
    }
  }

  /** A turn of a socket task that has replayed. */
  lemma LaterTurn(h: Hub, k: Conn)
    requires !k.phase.Down? && !k.phase.Subscribed?
    ensures var t := TaskTurn(h, k);
            && t.conn.base == k.base && !t.conn.phase.Down? && !t.conn.phase.Subscribed?
            && ((k.phase == Replaying || k.phase == Refilling) && k.backlog != [] ==> t.out == [k.backlog[0]])
  {}

  lemma BehindTask(s: System, b0: nat, p: nat)
    requires SerialHub(s.hub) && ConnInv(s.hub, s.conn) && Behind(s, b0, p)
    ensures Behind(Step(s, TaskStep), b0, p)
  {
    TaskStepMeans(s);
    TaskHub(s.hub, s.conn);
    TaskWrites(s.hub, s.conn);
    LaterTurn(s.hub, s.conn);
    BehindWritten(s, Step(s, TaskStep), TaskTurn(s.hub, s.conn).out, b0, p);
  }

  lemma BehindOther(s: System, a: Action, b0: nat, p: nat)
    requires SerialHub(s.hub) && Behind(s, b0, p) && Serialised(a) && !a.TaskStep? && !a.Receive? && !a.Drop?
    ensures Behind(Step(s, a), b0, p)
  {
    var t := Step(s, a);
    if a.PublishWhole? {
      PublishSerial(s.hub, a.body);
      BehindWritten(s, t, [], b0, p);
    }
  }

  /* ---- where a connection loses something ---- */

  lemma LateReplay(s: System, b0: nat)
    requires SerialHub(s.hub) && ConnInv(s.hub, s.conn) && InStep(s, b0) && s.conn.phase == Subscribed
    requires |s.hub.log| > s.browser.lastSeq + HISTORY_LIMIT
    ensures Behind(Step(s, TaskStep), b0, |s.conn.wire|)
  {
    ReplayFetches(s.hub, s.conn);
    assert s.conn.wire == [];
  }

  /** The connected event skips something. */
  lemma BehindAnnounced(s: System, t: System, e: Event, b0: nat)
    requires InStep(s, b0) && s.conn.phase == Replaying && t.browser == s.browser && s.hub.log <= t.hub.log
    requires var k := s.conn; k.base + |k.wire| <= |s.hub.log| && k.wire == s.hub.log[k.base..k.base + |k.wire|]
    requires s.browser.lastSeq <= s.conn.base + |s.conn.wire| && e.id > s.conn.base + |s.conn.wire| + 1
    requires t.conn.phase == Following && t.conn.base == s.conn.base
    requires t.conn.wire == s.conn.wire + [e] && t.inflight == s.inflight + [e]
    ensures Behind(t, b0, |s.conn.wire|)
  {
    var k, last := s.conn, s.browser.lastSeq;
    assert t.conn.wire[..|k.wire|] == k.wire;
    assert t.hub.log[b0..last] == s.hub.log[b0..last];
    assert t.hub.log[k.base..k.base + |k.wire|] == s.hub.log[k.base..k.base + |k.wire|];
  }

  lemma AnnounceSkips(h: Hub, k: Conn)
    requires SerialHub(h) && ConnInv(h, k) && k.phase == Replaying && k.backlog == [] && |h.log| != k.lastSeq
    ensures var t := TaskTurn(h, k);
            && h.log <= t.hub.log && t.out == [Event(|h.log| + 1, CONNECTED)] && t.conn.phase == Following
            && t.conn.base == k.base && k.base + |k.wire| < |h.log|
  {
    PublishSerial(h, CONNECTED);
    assert k.wire + k.backlog == k.wire;
  }

  lemma LoudWindow(s: System, b0: nat)
    requires SerialHub(s.hub) && ConnInv(s.hub, s.conn) && InStep(s, b0) && NotAhead(s)
    requires s.conn.phase == Replaying && s.conn.backlog == [] && |s.hub.log| != s.conn.lastSeq
    ensures Behind(Step(s, TaskStep), b0, |s.conn.wire|)
  {
    TaskStepMeans(s);
    AnnounceSkips(s.hub, s.conn);
    TaskWrites(s.hub, s.conn);
    StretchOfLog(s.hub, s.conn);
    BehindAnnounced(s, Step(s, TaskStep), Event(|s.hub.log| + 1, CONNECTED), b0);
  }

  lemma LateRefill(s: System, b0: nat)
    requires SerialHub(s.hub) && ConnInv(s.hub, s.conn) && InStep(s, b0) && NotAhead(s)
    requires s.conn.phase == Lagged && |s.hub.log| > s.conn.lastSeq + HISTORY_LIMIT
    ensures Behind(Step(s, TaskStep), b0, |s.conn.wire|)
  {
    StretchOfLog(s.hub, s.conn);
    LiveStands(s.hub, s.conn);
    RefillFetches(s.hub, s.conn);
    assert s.conn.wire[..|s.conn.wire|] == s.conn.wire;
  }

  lemma BehindStarts(s: System, b0: nat)
    requires SerialHub(s.hub) && ConnInv(s.hub, s.conn) && InStep(s, b0) && NotAhead(s) && !Keeps(s, TaskStep)
    ensures Behind(Step(s, TaskStep), b0, |s.conn.wire|)
  {
    if s.conn.phase == Subscribed {
      LateReplay(s, b0);
    } else if s.conn.phase == Replaying {
      LoudWindow(s, b0);
    } else {
      LateRefill(s, b0);
    }
  }

  /* ---- whole runs ---- */

  ghost predicate Watched(s: System, b0: nat, sound: Option<nat>) {
    match sound
    case None => InStep(s, b0) && NotAhead(s)
    case Some(p) => Behind(s, b0, p)
  }

  lemma NotAheadStep(s: System, a: Action, b0: nat)
    requires SerialHub(s.hub) && ConnInv(s.hub, s.conn) && InStep(s, b0) && NotAhead(s)
    requires Serialised(a) && Keeps(s, a)
    ensures !Jumps(s, a) && NotAhead(Step(s, a))
  {
    match a
    case TaskStep => NotAheadTask(s, b0);
    case Receive => NotAheadReceive(s, b0);
    case _ =>
  }

  lemma WatchedSound(s: System, a: Action, b0: nat)
    requires SerialHub(s.hub) && ConnInv(s.hub, s.conn) && Watched(s, b0, None) && Serialised(a)
    ensures !Jumps(s, a) && Watched(Step(s, a), b0, SoundAfter(s, a, None))
  {
    if Keeps(s, a) {
      InStepStep(s, a, b0);
      NotAheadStep(s, a, b0);
    } else {
      BehindStarts(s, b0);
    }
  }

  lemma DropRenews(s: System, b0: nat, p: nat)
    requires Behind(s, b0, p)
    ensures Watched(Step(s, Drop), b0, None)
  {}

  lemma BehindStep(s: System, a: Action, b0: nat, p: nat)
    requires SerialHub(s.hub) && ConnInv(s.hub, s.conn) && Behind(s, b0, p) && Serialised(a) && !a.Drop?
    ensures !Jumps(s, a) <==> TakesSound(s, a, Some(p))
    ensures !Jumps(s, a) ==> Behind(Step(s, a), b0, p)
  {
    if a.TaskStep? {
      BehindTask(s, b0, p);
    } else if a.Receive? {
      BehindReceive(s, b0, p);
    } else {
      BehindOther(s, a, b0, p);
    }
  }

  lemma WatchedBehind(s: System, a: Action, b0: nat, p: nat)
    requires SerialHub(s.hub) && ConnInv(s.hub, s.conn) && Behind(s, b0, p) && Serialised(a)
    ensures !Jumps(s, a) <==> TakesSound(s, a, Some(p))
    ensures !Jumps(s, a) ==> Watched(Step(s, a), b0, SoundAfter(s, a, Some(p)))
  {
    if a.Drop? {
      DropRenews(s, b0, p);
    } else {
      BehindStep(s, a, b0, p);
      assert SoundAfter(s, a, Some(p)) == Some(p);
    }
  }

  lemma WatchedStep(s: System, a: Action, b0: nat, sound: Option<nat>)
    requires SerialHub(s.hub) && ConnInv(s.hub, s.conn) && Watched(s, b0, sound) && Serialised(a)
    ensures !Jumps(s, a) <==> TakesSound(s, a, sound)
    ensures !Jumps(s, a) ==> Watched(Step(s, a), b0, SoundAfter(s, a, sound))
  {
    match sound
    case None => WatchedSound(s, a, b0);
    case Some(p) => WatchedBehind(s, a, b0, p);
  }

  lemma {:induction false} WatchedRun(s: System, actions: seq<Action>)
    requires Start(s) && AllSerialised(actions)
    ensures NeverJumps(s, actions) <==> OnlySoundReceived(s, actions)
    ensures NeverJumps(s, actions) ==> Watched(Run(s, actions), s.browser.lastSeq, SoundPart(s, actions))
  {
    if actions != [] {
      var n := |actions| - 1;
      WatchedRun(s, actions[..n]);
      SerialRun(s, actions[..n]);
      if NeverJumps(s, actions[..n]) {
        WatchedStep(Run(s, actions[..n]), actions[n], s.browser.lastSeq, SoundPart(s, actions[..n]));
      }
    }
  }

  /** After any serialised run the callback has seen every event between the browser's first and last
      position, each once and in order, iff on no connection the browser received anything that was
      written after the connection had lost something. */
  lemma MissesNothingIff(s: System, actions: seq<Action>)
    requires Start(s) && AllSerialised(actions)
    ensures var t := Run(s, actions);
            && s.browser.lastSeq <= t.browser.lastSeq <= |t.hub.log|
            && (t.browser.delivered == t.hub.log[s.browser.lastSeq..t.browser.lastSeq] <==>
                  OnlySoundReceived(s, actions))
  {
    WatchedRun(s, actions);
    MissesNothingIffNoJump(s, actions);
  }
}
