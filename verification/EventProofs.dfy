/** What the event stream guarantees over whole runs. */
module EventProofs {
  import opened EventProtocol
  import opened Numbers

  /* ---- vocabulary ---- */

  /** Strictly increasing event numbers, all above `lo`. */
  ghost predicate Rising(s: seq<Event>, lo: nat) {
    && (forall i :: 0 <= i < |s| ==> s[i].id > lo)
    && (forall i, j :: 0 <= i < j < |s| ==> s[i].id < s[j].id)
  }

  /** Every event of `s` is the one numbered under its id. */
  ghost predicate Logged(s: seq<Event>, log: seq<Event>) {
    forall i :: 0 <= i < |s| ==> Genuine(s[i], log)
  }

  ghost predicate Genuine(e: Event, log: seq<Event>) {
    1 <= e.id <= |log| && log[e.id - 1] == e
  }

  /** The number of the last event of `s`, or `lo` if there is none. */
  ghost function Horizon(s: seq<Event>, lo: nat): nat {
    if s == [] then lo else s[|s| - 1].id
  }

  ghost predicate Live(p: Phase) {
    p.Following? || p.Lagged? || p.Refilling?
  }

  lemma RisingAppend(s: seq<Event>, t: seq<Event>, lo: nat)
    requires Rising(s, lo) && Rising(t, Horizon(s, lo))
    ensures Rising(s + t, lo)
    ensures Horizon(s + t, lo) == Horizon(t, Horizon(s, lo))
  {
    if s == [] {
      assert s + t == t;
    } else {
      forall i | 0 <= i < |s| ensures s[i].id <= Horizon(s, lo) { RisingAtMost(s, i); }
    }
  }

  lemma LoggedAppend(s: seq<Event>, t: seq<Event>, log: seq<Event>)
    requires Logged(s, log) && Logged(t, log)
    ensures Logged(s + t, log)
  {}

  lemma LoggedMonotone(s: seq<Event>, log: seq<Event>, log': seq<Event>)
    requires Logged(s, log) && log <= log'
    ensures Logged(s, log')
  {}

  /** A stretch of a log is strictly increasing and fills its bounds. */
  lemma StretchRises(log: seq<Event>, from: nat, to: nat)
    requires NumberedFromOne(log) && from <= to <= |log|
    ensures Rising(log[from..to], from) && Logged(log[from..to], log)
    ensures Horizon(log[from..to], from) == to
  {}

  /* ---- the history ---- */

  lemma {:induction false} AfterOfConsecutive(log: seq<Event>, from: nat, id: nat)
    requires NumberedFromOne(log) && from <= |log| && id <= |log|
    ensures After(log[from..], id) == log[Max(from, id)..]
    decreases |log| - from
  {
    if from < |log| {
      assert log[from..][0] == log[from] && log[from..][1..] == log[from + 1..];
      AfterOfConsecutive(log, from + 1, id);
      if from >= id { assert log[from..] == [log[from]] + log[from + 1..]; }
    }
  }

  lemma {:induction false} AfterSelects(s: seq<Event>, id: nat)
    ensures forall e :: e in After(s, id) <==> e in s && e.id > id
  {
    if s != [] {
      AfterSelects(s[1..], id);
      assert s == [s[0]] + s[1..];
    }
  }

  lemma SerialHistory(h: Hub)
    requires SerialHub(h)
    ensures |h.history| == Min(|h.log|, HISTORY_LIMIT)
    ensures h.history == h.log[|h.log| - |h.history|..]
  {}

  lemma SnapshotOfSerial(h: Hub, id: nat)
    requires SerialHub(h) && id <= |h.log|
    ensures After(h.history, id) == h.log[Max(|h.log| - |h.history|, id)..]
  {
    SerialHistory(h);
    AfterOfConsecutive(h.log, |h.log| - |h.history|, id);
  }

  /** A whole publication appends one event to the log and the ring and keeps the history the
      last 2,000 events of the log. */
  lemma PublishSerial(h: Hub, body: string)
    requires SerialHub(h)
    ensures SerialHub(Publish(h, body))
    ensures Publish(h, body).log == h.log + [Event(|h.log| + 1, body)]
  {
    var e := Event(|h.log| + 1, body);
    var n := Number(h, body);
    assert n.pending == [Publication(e, Numbered)];
    var p := Push(n, 0);
    assert p.pending == [Publication(e, Pushed)];
    var d := Send(p, 0);
    assert d.pending == [];
    assert d.history == KeepLast(h.log + [e], HISTORY_LIMIT);
  }

  /* ---- one connection, serialised publications ---- */

  ghost predicate ConnInv(h: Hub, k: Conn) {
    var all := k.wire + k.backlog;
    && k.cursor <= |h.log|
    && match k.phase
       case Down => true
       case Subscribed => all == [] && k.lastSeq == k.windowLoss == k.trimLoss == 0
       case Replaying => ReplayInv(h, k)
       case Announcing(_) => false
       case _ => LiveInv(h, k)
  }

  /** A replay writes one stretch of the log that reaches at least to the receiver's position. */
  ghost predicate ReplayInv(h: Hub, k: Conn) {
    var all := k.wire + k.backlog;
    && k.windowLoss == k.trimLoss == 0
    && k.base + |all| <= |h.log| && all == h.log[k.base..k.base + |all|]
    && (all == [] ==> k.base == 0)
    && k.lastSeq == (if k.wire == [] then 0 else k.base + |k.wire|)
    && k.cursor <= k.base + |all|
  }

  /** The conservation law of a live connection: written + still to write + lost == passed. */
  ghost predicate LiveInv(h: Hub, k: Conn) {
    var all := k.wire + k.backlog;
    && k.mark < |k.wire|
    && Rising(all, k.base) && Logged(all, h.log)
    && k.lastSeq == k.wire[|k.wire| - 1].id
    && |all| + k.windowLoss + k.trimLoss == Horizon(all, k.base) - k.base
    && k.mark + k.windowLoss == k.wire[k.mark].id - 1 - k.base
    && (k.phase.Refilling? || k.backlog == [])
    && k.cursor <= |h.log|
    && (k.phase.Lagged? || k.cursor <= Horizon(all, k.base))
  }

  lemma ConnInvMonotone(h: Hub, h': Hub, k: Conn)
    requires ConnInv(h, k) && h.log <= h'.log
    ensures ConnInv(h', k)
  {}

  /** The connected event joins a wire that is a stretch of the log before it. */
  lemma AnnouncedMeans(h: Hub, k: Conn, e: Event)
    requires k.backlog == [] && e.id >= k.lastSeq
    ensures var k' := Announced(h, k, e).conn;
            && k'.wire == k.wire + [e] && k'.backlog == [] && k'.wire + k'.backlog == k.wire + [e]
            && k'.mark == |k.wire| && k'.wire[k'.mark] == e && k'.lastSeq == e.id
  {}

  lemma LastRises(log: seq<Event>, from: nat, to: nat)
    requires NumberedFromOne(log) && from <= to < |log|
    ensures var e := log[|log| - 1]; e.id == |log| && Rising([e], Horizon(log[from..to], from)) && Logged([e], log)
  {
    StretchRises(log, from, to);
  }

  lemma AnnouncedRises(log: seq<Event>, from: nat, to: nat)
    requires NumberedFromOne(log) && from <= to < |log|
    ensures var all := log[from..to] + [log[|log| - 1]];
            Rising(all, from) && Logged(all, log) && Horizon(all, from) == |log|
  {
    LastRises(log, from, to);
    StretchRises(log, from, to);
    RisingAppend(log[from..to], [log[|log| - 1]], from);
    LoggedAppend(log[from..to], [log[|log| - 1]], log);
  }

  lemma AnnouncedKeeps(h: Hub, k: Conn, e: Event)
    requires NumberedFromOne(h.log) && |h.log| > 0 && e == h.log[|h.log| - 1]
    requires k.backlog == [] && k.windowLoss == k.trimLoss == 0
    requires k.base + |k.wire| < |h.log| && k.wire == h.log[k.base..k.base + |k.wire|]
    requires k.lastSeq == k.base + |k.wire| && k.cursor <= k.lastSeq
    ensures LiveInv(h, Announced(h, k, e).conn)
  {
    AnnouncedRises(h.log, k.base, k.base + |k.wire|);
    AnnouncedMeans(h, k, e);
  }

  lemma AnnounceKeeps(h: Hub, k: Conn)
    requires SerialHub(h) && ConnInv(h, k) && k.phase == Replaying && k.backlog == []
    ensures var t := Announce(h, k); SerialHub(t.hub) && h.log <= t.hub.log && LiveInv(t.hub, t.conn)
    ensures Announce(h, k).conn.windowLoss == |h.log| - k.lastSeq
  {
    PublishSerial(h, CONNECTED);
    var h' := Publish(h, CONNECTED);
    var e := h'.log[|h.log|];
    assert k.wire + k.backlog == k.wire;
    assert k.wire == h'.log[k.base..k.base + |k.wire|];
    AnnouncedKeeps(h', k, e);
  }

  lemma FollowKeeps(h: Hub, k: Conn)
    requires SerialHub(h) && LiveInv(h, k) && k.phase == Following
    ensures LiveInv(h, Follow(h, k).conn)
  {
    var t := Follow(h, k);
    assert k.wire + k.backlog == k.wire;
    if k.cursor < |h.sent| && |h.sent| - k.cursor <= RING_CAPACITY && h.sent[k.cursor].id > k.lastSeq {
      var e := h.log[k.cursor];
      assert e.id == k.lastSeq + 1;
      assert t.conn.wire + t.conn.backlog == k.wire + [e];
      RisingAppend(k.wire, [e], k.base);
      LoggedAppend(k.wire, [e], h.log);
    } else {
      assert t.conn.wire + t.conn.backlog == k.wire;
    }
  }

  /** A refill fetches one stretch up to the end of the log and leaves out exactly what the
      history had already dropped. */
  lemma RefillFetches(h: Hub, k: Conn)
    requires SerialHub(h) && k.lastSeq <= |h.log|
    ensures var from := k.lastSeq + Overrun(h, k);
            && from <= |h.log| && (from < |h.log| || from == k.lastSeq)
            && Refill(h, k) == k.(phase := Refilling, backlog := h.log[from..|h.log|],
                                  trimLoss := k.trimLoss + from - k.lastSeq)
  {
    SnapshotOfSerial(h, k.lastSeq);
    SerialHistory(h);
    var from := k.lastSeq + Overrun(h, k);
    OverrunMeans(h, k);
    assert h.log[from..] == h.log[from..|h.log|];
  }

  lemma OverrunMeans(h: Hub, k: Conn)
    requires |h.history| == Min(|h.log|, HISTORY_LIMIT) && k.lastSeq <= |h.log|
    ensures k.lastSeq + Overrun(h, k) == Max(|h.log| - |h.history|, k.lastSeq)
  {}

  lemma FetchedKeeps(h: Hub, k: Conn, from: nat)
    requires NumberedFromOne(h.log) && LiveInv(h, k) && k.backlog == [] && k.lastSeq <= from <= |h.log|
    requires from < |h.log| || from == k.lastSeq
    ensures LiveInv(h, k.(phase := Refilling, backlog := h.log[from..|h.log|],
                          trimLoss := k.trimLoss + from - k.lastSeq))
  {
    var fetched := h.log[from..|h.log|];
    assert k.wire + k.backlog == k.wire;
    assert Horizon(k.wire, k.base) == k.lastSeq;
    StretchRises(h.log, from, |h.log|);
    assert Rising(fetched, k.lastSeq);
    RisingAppend(k.wire, fetched, k.base);
    LoggedAppend(k.wire, fetched, h.log);
    assert (k.wire + fetched)[|k.wire| - 1] == k.wire[|k.wire| - 1];
  }

  lemma LivePosition(h: Hub, k: Conn)
    requires LiveInv(h, k)
    ensures k.lastSeq <= |h.log|
  {
    var all := k.wire + k.backlog;
    assert all[|k.wire| - 1] == k.wire[|k.wire| - 1];
  }

  lemma RefillKeeps(h: Hub, k: Conn)
    requires SerialHub(h) && LiveInv(h, k) && k.phase == Lagged
    ensures LiveInv(h, Refill(h, k))
  {
    LivePosition(h, k);
    RefillFetches(h, k);
    FetchedKeeps(h, k, k.lastSeq + Overrun(h, k));
  }

  lemma BacklogKeeps(h: Hub, k: Conn)
    requires SerialHub(h) && ConnInv(h, k) && (k.phase == Replaying || k.phase == Refilling) && k.backlog != []
    ensures ConnInv(h, TaskTurn(h, k).conn)
  {
    var t := if k.phase == Replaying then WriteReplayed(h, k) else WriteRefilled(h, k);
    assert t.conn.wire + t.conn.backlog == k.wire + k.backlog;
    if k.phase == Replaying {
      assert (k.wire + k.backlog)[|k.wire|] == k.backlog[0] == h.log[k.base + |k.wire|];
    }
  }

  lemma ReplayFetches(h: Hub, k: Conn)
    requires SerialHub(h)
    ensures var k' := Replay(h, k);
            && k'.base == |h.log| - Min(|h.log|, HISTORY_LIMIT) && k'.backlog == h.log[k'.base..|h.log|]
            && k' == k.(phase := Replaying, backlog := k'.backlog, base := k'.base)
  {
    SnapshotOfSerial(h, 0);
    SerialHistory(h);
    assert h.log[Replay(h, k).base..] == h.log[Replay(h, k).base..|h.log|];
  }

  lemma ReplayKeeps(h: Hub, k: Conn)
    requires SerialHub(h) && ConnInv(h, k) && k.phase == Subscribed
    ensures ReplayInv(h, Replay(h, k)) && Replay(h, k).base == |h.log| - Min(|h.log|, HISTORY_LIMIT)
  {
    ReplayFetches(h, k);
    assert k.wire == [] && k.wire + Replay(h, k).backlog == Replay(h, k).backlog;
  }

  /** A socket task touches the hub only to announce itself, and then by one whole publication. */
  lemma TaskHub(h: Hub, k: Conn)
    requires SerialHub(h) && ConnInv(h, k)
    ensures SerialHub(TaskTurn(h, k).hub) && h.log <= TaskTurn(h, k).hub.log
    ensures !(k.phase == Replaying && k.backlog == []) ==> TaskTurn(h, k).hub == h
  {
    if k.phase == Replaying && k.backlog == [] {
      AnnounceKeeps(h, k);
    }
  }

  lemma LiveTaskKeeps(h: Hub, k: Conn)
    requires SerialHub(h) && LiveInv(h, k) && Live(k.phase)
    ensures LiveInv(h, TaskTurn(h, k).conn) && Live(TaskTurn(h, k).conn.phase)
  {
    if k.phase == Following {
      FollowKeeps(h, k);
    } else if k.phase == Lagged {
      RefillKeeps(h, k);
    } else if k.backlog != [] {
      BacklogKeeps(h, k);
    } else {
      assert TaskTurn(h, k).conn.wire + TaskTurn(h, k).conn.backlog == k.wire + k.backlog;
    }
  }

  lemma TaskKeeps(h: Hub, k: Conn)
    requires SerialHub(h) && ConnInv(h, k)
    ensures ConnInv(TaskTurn(h, k).hub, TaskTurn(h, k).conn)
  {
    if Live(k.phase) {
      LiveTaskKeeps(h, k);
    } else if k.phase == Subscribed {
      ReplayKeeps(h, k);
    } else if k.phase == Replaying {
      if k.backlog == [] { AnnounceKeeps(h, k); } else { BacklogKeeps(h, k); }
    }
  }

  lemma TaskWrites(h: Hub, k: Conn)
    ensures TaskTurn(h, k).conn.wire == k.wire + TaskTurn(h, k).out
  {}

  /** Between bounds, a strictly increasing sequence that fills them is consecutive. */
  lemma {:induction false} RisingFills(s: seq<Event>, log: seq<Event>, lo: nat)
    requires lo <= |log| && Rising(s, lo) && Logged(s, log) && |s| == Horizon(s, lo) - lo
    ensures lo + |s| <= |log| && s == log[lo..lo + |s|]
  {
    forall i | 0 <= i < |s| ensures s[i].id == lo + 1 + i {
      RisingAtLeast(s, lo, i);
      RisingAtMost(s, i);
    }
  }

  lemma {:induction false} RisingAtLeast(s: seq<Event>, lo: nat, i: nat)
    requires Rising(s, lo) && i < |s|
    ensures s[i].id >= lo + 1 + i
  {
    if i > 0 { RisingAtLeast(s, lo, i - 1); assert s[i - 1].id < s[i].id; }
  }

  lemma {:induction false} RisingAtMost(s: seq<Event>, i: nat)
    requires (forall a, b :: 0 <= a < b < |s| ==> s[a].id < s[b].id) && i < |s|
    ensures s[i].id + (|s| - 1 - i) <= s[|s| - 1].id
    decreases |s| - i
  {
    if i + 1 < |s| { RisingAtMost(s, i + 1); assert s[i].id < s[i + 1].id; }
  }

  /** What a live connection has written or fetched: between refills that is its wire. */
  ghost function Passed(k: Conn): seq<Event> { k.wire + k.backlog }

  /** From the connected event on it is strictly increasing whatever was lost, and gap-free iff no
      refill was overrun. */
  lemma PassedSinceConnected(h: Hub, k: Conn)
    requires SerialHub(h) && LiveInv(h, k)
    ensures Rising(Passed(k), k.base) && Logged(Passed(k), h.log)
    ensures var c, end := k.wire[k.mark].id, Horizon(Passed(k), k.base);
            1 <= c <= end <= |h.log| && (Passed(k)[k.mark..] == h.log[c - 1..end] <==> k.trimLoss == 0)
  {
    var all := Passed(k);
    assert all[k.mark] == k.wire[k.mark];
    var c, end := all[k.mark].id, Horizon(all, k.base);
    TailRises(all, h.log, k.base, k.mark);
    assert |all[k.mark..]| + k.trimLoss == end - (c - 1);
    if k.trimLoss == 0 {
      RisingFills(all[k.mark..], h.log, c - 1);
    }
  }

  lemma TailRises(s: seq<Event>, log: seq<Event>, lo: nat, from: nat)
    requires Rising(s, lo) && Logged(s, log) && from < |s|
    ensures 1 <= s[from].id <= Horizon(s, lo) <= |log|
    ensures Rising(s[from..], s[from].id - 1) && Logged(s[from..], log)
    ensures Horizon(s[from..], s[from].id - 1) == Horizon(s, lo)
  {
    RisingAtMost(s, from);
  }

  /** All of it is gap-free iff moreover nothing was published between replay and announcement. */
  lemma PassedSinceReplay(h: Hub, k: Conn)
    requires SerialHub(h) && LiveInv(h, k)
    ensures var end := Horizon(Passed(k), k.base);
            k.base <= end <= |h.log| && (Passed(k) == h.log[k.base..end] <==> k.windowLoss == 0 && k.trimLoss == 0)
  {
    var all := Passed(k);
    TailRises(all, h.log, k.base, k.mark);
    var end := Horizon(all, k.base);
    assert all[0].id > k.base && all[|all| - 1] == h.log[end - 1];
    assert |all| + k.windowLoss + k.trimLoss == end - k.base;
    if k.windowLoss == 0 && k.trimLoss == 0 {
      RisingFills(all, h.log, k.base);
    }
  }

  /* ---- runs with serialised publications ---- */

  ghost predicate AllSerialised(actions: seq<Action>) {
    forall i :: 0 <= i < |actions| ==> Serialised(actions[i])
  }

  lemma {:induction false} SerialRun(s: System, actions: seq<Action>)
    requires Start(s) && AllSerialised(actions)
    ensures var t := Run(s, actions); SerialHub(t.hub) && ConnInv(t.hub, t.conn) && s.hub.log <= t.hub.log
  {
    if actions != [] {
      var n := |actions| - 1;
      SerialRun(s, actions[..n]);
      SerialStep(Run(s, actions[..n]), actions[n]);
    }
  }

  lemma SerialStep(s: System, a: Action)
    requires SerialHub(s.hub) && ConnInv(s.hub, s.conn) && Serialised(a)
    ensures var t := Step(s, a); SerialHub(t.hub) && ConnInv(t.hub, t.conn) && s.hub.log <= t.hub.log
  {
    match a
    case PublishWhole(body) =>
      PublishSerial(s.hub, body);
      ConnInvMonotone(s.hub, Step(s, a).hub, s.conn);
    case TaskStep =>
      TaskHub(s.hub, s.conn);
      TaskKeeps(s.hub, s.conn);
    case _ =>
  }

  /** The step ends the current connection or opens a new one. */
  predicate Renews(s: System, a: Action) {
    a.Drop? || (a.Connect? && s.conn.phase == Down && !s.browser.stopped)
  }

  /** At every refill of the current connection at most 2,000 events had been missed. */
  ghost predicate RefillsInTime(s: System, actions: seq<Action>) {
    actions == [] ||
    var u, a := Run(s, actions[..|actions| - 1]), actions[|actions| - 1];
    Renews(u, a) ||
    (RefillsInTime(s, actions[..|actions| - 1]) &&
     (a.TaskStep? && u.conn.phase == Lagged ==> |u.hub.log| <= u.conn.lastSeq + HISTORY_LIMIT))
  }

  /** Nothing was published between the replay and the announcement of the current connection. */
  ghost predicate QuietWindow(s: System, actions: seq<Action>) {
    actions == [] ||
    var u, a := Run(s, actions[..|actions| - 1]), actions[|actions| - 1];
    Renews(u, a) ||
    (QuietWindow(s, actions[..|actions| - 1]) &&
     (a.TaskStep? && u.conn.phase == Replaying && u.conn.backlog == [] ==> |u.hub.log| == u.conn.lastSeq))
  }

  lemma TrimStep(s: System, a: Action)
    ensures var t := Step(s, a);
            t.conn.trimLoss == if Renews(s, a) then 0
                               else s.conn.trimLoss +
                                    if a.TaskStep? && s.conn.phase == Lagged then Overrun(s.hub, s.conn) else 0
  {}

  lemma WindowStep(s: System, a: Action)
    requires SerialHub(s.hub) && ConnInv(s.hub, s.conn) && Serialised(a)
    ensures var t, announces := Step(s, a), a.TaskStep? && s.conn.phase == Replaying && s.conn.backlog == [];
            && (Renews(s, a) ==> t.conn.windowLoss == 0)
            && (announces ==> s.conn.windowLoss == 0 && (t.conn.windowLoss == 0 <==> |s.hub.log| == s.conn.lastSeq))
            && (!Renews(s, a) && !announces ==> t.conn.windowLoss == s.conn.windowLoss)
  {
    if a.TaskStep? && s.conn.phase == Replaying && s.conn.backlog == [] {
      AnnounceKeeps(s.hub, s.conn);
      assert s.conn.lastSeq <= |s.hub.log|;
    }
  }

  lemma {:induction false} TrimLossMeans(s: System, actions: seq<Action>)
    requires s.conn == NO_CONN
    ensures Run(s, actions).conn.trimLoss == 0 <==> RefillsInTime(s, actions)
  {
    if actions != [] {
      var n := |actions| - 1;
      TrimLossMeans(s, actions[..n]);
      TrimStep(Run(s, actions[..n]), actions[n]);
    }
  }

  lemma {:induction false} WindowLossMeans(s: System, actions: seq<Action>)
    requires Start(s) && AllSerialised(actions)
    ensures Run(s, actions).conn.windowLoss == 0 <==> QuietWindow(s, actions)
  {
    if actions != [] {
      var n := |actions| - 1;
      WindowLossMeans(s, actions[..n]);
      SerialRun(s, actions[..n]);
      WindowStep(Run(s, actions[..n]), actions[n]);
    }
  }

  /** What a live connection has written and fetched, from its connected event on, is the log without a
      gap iff `inTime`, and from its replay on iff moreover `quiet`; it rises in any case. */
  ghost predicate Delivers(h: Hub, k: Conn, inTime: bool, quiet: bool) {
    var all := Passed(k);
    && k.mark < |k.wire| && Rising(all, k.base) && (k.phase != Refilling ==> all == k.wire)
    && var c, end := k.wire[k.mark].id, Horizon(all, k.base);
       && 1 <= c <= end <= |h.log| && k.base <= end
       && (all[k.mark..] == h.log[c - 1..end] <==> inTime)
       && (all == h.log[k.base..end] <==> quiet && inTime)
  }

  lemma LiveDelivers(h: Hub, k: Conn)
    requires SerialHub(h) && LiveInv(h, k)
    ensures Delivers(h, k, k.trimLoss == 0, k.windowLoss == 0)
  {
    PassedSinceConnected(h, k);
    PassedSinceReplay(h, k);
    assert k.wire + [] == k.wire;
  }

  /** After its connected event a socket writes exactly the following events, through any number
      of overruns of the ring, iff at every refill at most 2,000 events had been missed; from its
      replay on, iff moreover nothing was published before the announcement. During a refill this
      speaks of what is fetched and still to be written as well. */
  lemma SocketDelivery(s: System, actions: seq<Action>)
    requires Start(s) && AllSerialised(actions) && Live(Run(s, actions).conn.phase)
    ensures var t := Run(s, actions); Delivers(t.hub, t.conn, RefillsInTime(s, actions), QuietWindow(s, actions))
  {
    SerialRun(s, actions);
    LiveDelivers(Run(s, actions).hub, Run(s, actions).conn);
    TrimLossMeans(s, actions);
    WindowLossMeans(s, actions);
  }

  /* ---- exactly once across reconnects ---- */

  /** The browser stands somewhere in the log, has delivered everything up to there, and what is
      in flight to it is the rest of the wire, starting no later than its position. */
  ghost predicate InStep(s: System, b0: nat) {
    var k, b := s.conn, s.browser;
    && b0 <= b.lastSeq <= |s.hub.log| && b.delivered == s.hub.log[b0..b.lastSeq]
    && k.windowLoss == k.trimLoss == 0
    && EndOf(k.wire, s.inflight)
    && (if k.phase.Down? || k.phase.Subscribed? then s.inflight == []
        else k.base + |k.wire| - |s.inflight| <= b.lastSeq)
  }

  ghost predicate EndOf(wire: seq<Event>, rest: seq<Event>) {
    |rest| <= |wire| && rest == wire[|wire| - |rest|..]
  }

  lemma FirstPart(s: seq<Event>, t: seq<Event>, log: seq<Event>, from: nat)
    requires from + |s + t| <= |log| && s + t == log[from..from + |s + t|]
    ensures from + |s| <= |log| && s == log[from..from + |s|]
  {
    assert s == (s + t)[..|s|];
  }

  /** Without losses everything written on the connection is one stretch of the log. */
  lemma StretchOfLog(h: Hub, k: Conn)
    requires SerialHub(h) && ConnInv(h, k) && k.windowLoss == k.trimLoss == 0
    requires Live(k.phase) || k.phase.Replaying?
    ensures k.base + |k.wire| <= |h.log| && k.wire == h.log[k.base..k.base + |k.wire|]
  {
    if Live(k.phase) {
      PassedSinceReplay(h, k);
    }
    FirstPart(k.wire, k.backlog, h.log, k.base);
  }

  lemma NextInFlight(s: System, b0: nat)
    requires SerialHub(s.hub) && ConnInv(s.hub, s.conn) && InStep(s, b0) && s.inflight != []
    ensures 1 <= s.inflight[0].id <= s.browser.lastSeq + 1 && s.inflight[0].id <= |s.hub.log|
    ensures s.inflight[0] == s.hub.log[s.inflight[0].id - 1]
    ensures s.inflight[0].id == s.conn.base + |s.conn.wire| - |s.inflight| + 1
  {
    StretchOfLog(s.hub, s.conn);
    var at := |s.conn.wire| - |s.inflight|;
    assert s.inflight[0] == s.conn.wire[at] == s.hub.log[s.conn.base + at];
  }

  lemma InStepReceive(s: System, b0: nat)
    requires SerialHub(s.hub) && ConnInv(s.hub, s.conn) && InStep(s, b0)
    ensures InStep(Step(s, Receive), b0)
  {
    if s.inflight != [] {
      var e, b := s.inflight[0], s.browser.lastSeq;
      NextInFlight(s, b0);
      assert s.inflight[1..] == s.conn.wire[|s.conn.wire| - |s.inflight| + 1..];
      if e.id > b {
        assert s.hub.log[b0..b + 1] == s.hub.log[b0..b] + [e];
      }
    }
  }

  /** What a lossless turn leaves alone. */
  lemma LosslessTurn(h: Hub, k: Conn, position: nat)
    requires SerialHub(h) && ConnInv(h, k) && k.windowLoss == k.trimLoss == 0
    requires k.phase == Subscribed ==> |h.log| <= position + HISTORY_LIMIT
    requires k.phase == Replaying && k.backlog == [] ==> |h.log| == k.lastSeq
    requires k.phase == Lagged ==> |h.log| <= k.lastSeq + HISTORY_LIMIT
    ensures var k' := TaskTurn(h, k).conn;
            && k'.windowLoss == k'.trimLoss == 0 && !k'.phase.Subscribed? && (k'.phase.Down? <==> k.phase.Down?)
            && if k.phase == Subscribed then k'.base <= position && k'.wire == k.wire else k'.base == k.base
  {
    if k.phase == Subscribed {
      ReplayKeeps(h, k);
    } else if k.phase == Replaying && k.backlog == [] {
      AnnounceKeeps(h, k);
    }
  }

  lemma TaskOut(h: Hub, k: Conn)
    ensures k.phase.Down? || k.phase.Subscribed? ==> TaskTurn(h, k).out == []
  {}

  /** Writing only, without a loss, keeps the browser in step. */
  lemma InStepWritten(s: System, t: System, out: seq<Event>, b0: nat)
    requires InStep(s, b0) && t.browser == s.browser && s.hub.log <= t.hub.log
    requires t.conn.wire == s.conn.wire + out && t.inflight == s.inflight + out
    requires t.conn.windowLoss == t.conn.trimLoss == 0
    requires if t.conn.phase.Down? || t.conn.phase.Subscribed? then t.inflight == []
             else t.conn.base + |s.conn.wire| - |s.inflight| <= s.browser.lastSeq
    ensures InStep(t, b0)
  {
    assert t.hub.log[b0..s.browser.lastSeq] == s.hub.log[b0..s.browser.lastSeq];
  }

  lemma TaskStepMeans(s: System)
    ensures var t, u := Step(s, TaskStep), TaskTurn(s.hub, s.conn);
            t.hub == u.hub && t.conn == u.conn && t.inflight == s.inflight + u.out && t.browser == s.browser
  {}

  lemma InStepTask(s: System, b0: nat)
    requires SerialHub(s.hub) && ConnInv(s.hub, s.conn) && InStep(s, b0) && Keeps(s, TaskStep)
    ensures InStep(Step(s, TaskStep), b0)
  {
    TaskStepMeans(s);
    TaskHub(s.hub, s.conn);
    TaskWrites(s.hub, s.conn);
    LosslessTurn(s.hub, s.conn, s.browser.lastSeq);
    TaskOut(s.hub, s.conn);
    InStepWritten(s, Step(s, TaskStep), TaskTurn(s.hub, s.conn).out, b0);
  }

  lemma InStepStep(s: System, a: Action, b0: nat)
    requires SerialHub(s.hub) && ConnInv(s.hub, s.conn) && InStep(s, b0) && Serialised(a) && Keeps(s, a)
    ensures InStep(Step(s, a), b0)
  {
    match a
    case PublishWhole(body) =>
      PublishSerial(s.hub, body);
      assert Step(s, a).hub.log[b0..s.browser.lastSeq] == s.hub.log[b0..s.browser.lastSeq];
    case TaskStep => InStepTask(s, b0);
    case Receive => InStepReceive(s, b0);
    case _ =>
  }

  lemma {:induction false} InStepRun(s: System, actions: seq<Action>)
    requires Start(s) && AllSerialised(actions) && Lossless(s, actions)
    ensures InStep(Run(s, actions), s.browser.lastSeq)
  {
    if actions != [] {
      var n := |actions| - 1;
      SerialRun(s, actions[..n]);
      InStepRun(s, actions[..n]);
      InStepStep(Run(s, actions[..n]), actions[n], s.browser.lastSeq);
    }
  }

  /** With nothing left to read, write or receive, the browser stands at the end of the log. */
  lemma QuietBrowserIsCurrent(s: System, b0: nat)
    requires SerialHub(s.hub) && ConnInv(s.hub, s.conn) && InStep(s, b0)
    requires s.conn.phase == Following && s.conn.cursor == |s.hub.sent| && s.inflight == []
    ensures s.browser.lastSeq == |s.hub.log|
  {
    var k := s.conn;
    StretchOfLog(s.hub, k);
    assert k.wire + k.backlog == k.wire;
    assert k.wire[|k.wire| - 1] == s.hub.log[k.base + |k.wire| - 1];
  }

  /** Through any number of reconnects the callback sees exactly the events after the browser's
      first position, each once and in order, and it has seen all of them once nothing is left
      to do. */
  lemma ExactlyOnce(s: System, actions: seq<Action>)
    requires Start(s) && AllSerialised(actions) && Lossless(s, actions)
    ensures var t := Run(s, actions);
            && s.browser.lastSeq <= t.browser.lastSeq <= |t.hub.log|
            && t.browser.delivered == t.hub.log[s.browser.lastSeq..t.browser.lastSeq]
            && (t.conn.phase == Following && t.conn.cursor == |t.hub.sent| && t.inflight == [] ==>
                  t.browser.lastSeq == |t.hub.log|)
  {
    SerialRun(s, actions);
    InStepRun(s, actions);
    var t := Run(s, actions);
    if t.conn.phase == Following && t.conn.cursor == |t.hub.sent| && t.inflight == [] {
      QuietBrowserIsCurrent(t, s.browser.lastSeq);
    }
  }

  /* ---- arbitrary interleavings ---- */

  ghost predicate SafeHub(h: Hub) {
    && NumberedFromOne(h.log) && Logged(h.history, h.log) && Logged(h.sent, h.log)
    && forall i :: 0 <= i < |h.pending| ==> Genuine(h.pending[i].event, h.log)
  }

  ghost predicate SafeConn(log: seq<Event>, k: Conn) {
    Logged(k.backlog, log) && (k.phase.Announcing? ==> Genuine(k.phase.connected, log))
  }

  ghost predicate SafeClient(log: seq<Event>, inflight: seq<Event>, b: Browser, b0: nat) {
    && Logged(inflight, log) && Logged(b.delivered, log) && Rising(b.delivered, b0)
    && b.lastSeq == Horizon(b.delivered, b0)
  }

  /** Holds in every reachable state, however publishers, tasks and reconnects interleave. */
  ghost predicate SafeInv(s: System, b0: nat) {
    SafeHub(s.hub) && SafeConn(s.hub.log, s.conn) && SafeClient(s.hub.log, s.inflight, s.browser, b0)
  }

  lemma LoggedAfter(s: seq<Event>, id: nat, log: seq<Event>)
    requires Logged(s, log)
    ensures Logged(After(s, id), log)
  {
    AfterSelects(s, id);
    forall i | 0 <= i < |After(s, id)| ensures Genuine(After(s, id)[i], log) {
      assert After(s, id)[i] in s;
    }
  }

  lemma SafeNumber(h: Hub, body: string)
    requires SafeHub(h)
    ensures SafeHub(Number(h, body)) && h.log <= Number(h, body).log
  {}

  lemma SafePush(h: Hub, i: nat)
    requires SafeHub(h)
    ensures SafeHub(Push(h, i)) && Push(h, i).log == h.log
  {
    if i < |h.pending| {
      LoggedAppend(h.history, [h.pending[i].event], h.log);
    }
  }

  lemma SafeSend(h: Hub, i: nat)
    requires SafeHub(h)
    ensures SafeHub(Send(h, i)) && Send(h, i).log == h.log
  {
    if i < |h.pending| {
      LoggedAppend(h.sent, [h.pending[i].event], h.log);
    }
  }

  lemma SafePublish(h: Hub, body: string)
    requires SafeHub(h)
    ensures SafeHub(Publish(h, body)) && h.log <= Publish(h, body).log && |Publish(h, body).log| == |h.log| + 1
  {
    var i := |h.pending|;
    SafeNumber(h, body);
    SafePush(Number(h, body), i);
    SafeSend(Push(Number(h, body), i), i);
  }

  lemma SafeTurn(h: Hub, k: Conn)
    requires SafeHub(h) && SafeConn(h.log, k)
    ensures var t := TaskTurn(h, k);
            SafeHub(t.hub) && h.log <= t.hub.log && SafeConn(t.hub.log, t.conn) && Logged(t.out, t.hub.log)
  {
    if k.phase == Replaying && k.backlog == [] {
      SafePublish(h, CONNECTED);
    } else if k.phase == Subscribed {
      LoggedAfter(h.history, 0, h.log);
    } else if k.phase == Lagged {
      LoggedAfter(h.history, k.lastSeq, h.log);
    }
  }

  lemma SafeReceive(log: seq<Event>, inflight: seq<Event>, b: Browser, b0: nat)
    requires SafeClient(log, inflight, b, b0) && inflight != []
    ensures SafeClient(log, inflight[1..], OnMessage(b, inflight[0]), b0)
  {
    var e := inflight[0];
    if e.id > b.lastSeq {
      RisingAppend(b.delivered, [e], b0);
      LoggedAppend(b.delivered, [e], log);
    }
  }

  lemma SafeStep(s: System, a: Action, b0: nat)
    requires SafeInv(s, b0)
    ensures SafeInv(Step(s, a), b0)
  {
    match a
    case PublishWhole(body) => SafePublish(s.hub, body);
    case NumberOne(body) => SafeNumber(s.hub, body);
    case PushOne(i) => SafePush(s.hub, i);
    case SendOne(i) => SafeSend(s.hub, i);
    case AnnounceSlowly => SafeNumber(s.hub, CONNECTED);
    case TaskStep =>
      SafeTurn(s.hub, s.conn);
      var t := TaskTurn(s.hub, s.conn);
      LoggedMonotone(s.inflight, s.hub.log, t.hub.log);
      LoggedAppend(s.inflight, t.out, t.hub.log);
    case Receive => if s.inflight != [] { SafeReceive(s.hub.log, s.inflight, s.browser, b0); }
    case _ =>
  }

  lemma {:induction false} SafeRun(s: System, actions: seq<Action>, b0: nat)
    requires SafeInv(s, b0)
    ensures SafeInv(Run(s, actions), b0)
  {
    if actions != [] {
      var n := |actions| - 1;
      SafeRun(s, actions[..n], b0);
      SafeStep(Run(s, actions[..n]), actions[n], b0);
    }
  }

  lemma StartIsSafe(s: System)
    requires Start(s)
    ensures SafeInv(s, s.browser.lastSeq)
  {
    StretchRises(s.hub.log, 0, |s.hub.log|);
    assert s.hub.log[0..|s.hub.log|] == s.hub.log;
    SerialHistory(s.hub);
    StretchRises(s.hub.log, |s.hub.log| - |s.hub.history|, |s.hub.log|);
  }

  /** Whatever interleaves, the callback sees strictly increasing numbers, so no event twice,
      and only events that were published, unaltered. */
  lemma CallbackIsSafe(s: System, actions: seq<Action>)
    requires Start(s)
    ensures var t := Run(s, actions);
            && Rising(t.browser.delivered, s.browser.lastSeq)
            && Logged(t.browser.delivered, t.hub.log)
  {
    StartIsSafe(s);
    SafeRun(s, actions, s.browser.lastSeq);
  }

  /** An event the browser has passed without delivering it stays lost in every continuation. */
  lemma {:induction false} LostStaysLost(s: System, actions: seq<Action>, id: nat)
    requires 1 <= id <= s.browser.lastSeq
    requires forall e :: e in s.browser.delivered ==> e.id != id
    ensures id <= Run(s, actions).browser.lastSeq
    ensures forall e :: e in Run(s, actions).browser.delivered ==> e.id != id
  {
    if actions != [] {
      LostStaysLost(s, actions[..|actions| - 1], id);
    }
  }

  /* ---- which events a following socket writes ---- */

  /** The highest number of `s`, or `lo` if that is higher. */
  function Top(s: seq<Event>, lo: nat): nat {
    if s == [] then lo else Max(Top(s[..|s| - 1], lo), s[|s| - 1].id)
  }

  /** The events of `s` that are numbered above `lo` and above everything before them. */
  function Records(s: seq<Event>, lo: nat): seq<Event> {
    if s == [] then []
    else
      var init, last := s[..|s| - 1], s[|s| - 1];
      Records(init, lo) + if last.id > Top(init, lo) then [last] else []
  }

  lemma {:induction false} TopMeans(s: seq<Event>, lo: nat, n: nat)
    ensures Top(s, lo) < n <==> lo < n && forall i :: 0 <= i < |s| ==> s[i].id < n
  {
    if s != [] { TopMeans(s[..|s| - 1], lo, n); }
  }

  ghost predicate Leads(s: seq<Event>, lo: nat, i: nat, e: Event) {
    i < |s| && s[i] == e && lo < e.id && forall j :: 0 <= j < i ==> s[j].id < e.id
  }

  lemma LeadsLast(s: seq<Event>, lo: nat, i: nat, e: Event)
    requires s != []
    ensures var init, last := s[..|s| - 1], s[|s| - 1];
            Leads(s, lo, i, e) <==> Leads(init, lo, i, e) || (i == |init| && e == last && e.id > Top(init, lo))
  {
    var init := s[..|s| - 1];
    TopMeans(init, lo, s[|s| - 1].id);
    assert forall j :: 0 <= j < |init| ==> init[j] == s[j];
  }

  lemma {:induction false} RecordsMean(s: seq<Event>, lo: nat, e: Event)
    ensures e in Records(s, lo) <==> exists i: nat :: Leads(s, lo, i, e)
  {
    if s != [] {
      var init, last := s[..|s| - 1], s[|s| - 1];
      RecordsMean(init, lo, e);
      assert e in Records(s, lo) <==> e in Records(init, lo) || (last.id > Top(init, lo) && e == last);
      LeadsLast(s, lo, |init|, e);
      if i: nat :| Leads(init, lo, i, e) { LeadsLast(s, lo, i, e); }
      if i: nat :| Leads(s, lo, i, e) { LeadsLast(s, lo, i, e); }
    }
  }

  /** The connection stays up and the ring never overruns it. */
  ghost predicate KeepsUp(s: System, actions: seq<Action>) {
    actions == [] ||
    var u, a := Run(s, actions[..|actions| - 1]), actions[|actions| - 1];
    KeepsUp(s, actions[..|actions| - 1]) && !a.Drop? &&
    (a.TaskStep? ==> |u.hub.sent| - u.conn.cursor <= RING_CAPACITY)
  }

  /** What a following socket has read since it stood at `from`. */
  function ReadSince(t: System, from: nat): seq<Event> {
    if from <= t.conn.cursor <= |t.hub.sent| then t.hub.sent[from..t.conn.cursor] else []
  }

  ghost predicate Follows(s: System, t: System) {
    && t.conn.phase == Following && s.hub.sent <= t.hub.sent
    && s.conn.cursor <= t.conn.cursor <= |t.hub.sent|
    && t.conn.wire == s.conn.wire + Records(ReadSince(t, s.conn.cursor), s.conn.lastSeq)
    && t.conn.lastSeq == Top(ReadSince(t, s.conn.cursor), s.conn.lastSeq)
  }

  lemma RecordsNext(read: seq<Event>, e: Event, lo: nat)
    ensures Records(read + [e], lo) == Records(read, lo) + if e.id > Top(read, lo) then [e] else []
    ensures Top(read + [e], lo) == Max(Top(read, lo), e.id)
  {
    assert (read + [e])[..|read|] == read;
  }

  lemma ReadNext(t: System, t': System, from: nat)
    requires from <= t.conn.cursor < |t.hub.sent| && t'.hub.sent == t.hub.sent && t'.conn.cursor == t.conn.cursor + 1
    ensures ReadSince(t', from) == ReadSince(t, from) + [t.hub.sent[t.conn.cursor]]
  {}

  /** One turn of a socket that has something to read and is not overrun. */
  lemma FollowTurn(t: System)
    requires t.conn.phase == Following && t.conn.cursor < |t.hub.sent| <= t.conn.cursor + RING_CAPACITY
    ensures var t', e := Step(t, TaskStep), t.hub.sent[t.conn.cursor];
            && t'.hub == t.hub && t'.conn.phase == Following && t'.conn.cursor == t.conn.cursor + 1
            && t'.conn.lastSeq == Max(t.conn.lastSeq, e.id)
            && t'.conn.wire == t.conn.wire + if e.id > t.conn.lastSeq then [e] else []
  {}

  lemma FollowsNext(s: System, t: System, t': System, e: Event)
    requires Follows(s, t) && t.conn.cursor < |t.hub.sent| && e == t.hub.sent[t.conn.cursor]
    requires t'.hub == t.hub && t'.conn.phase == Following && t'.conn.cursor == t.conn.cursor + 1
    requires t'.conn.lastSeq == Max(t.conn.lastSeq, e.id)
    requires t'.conn.wire == t.conn.wire + if e.id > t.conn.lastSeq then [e] else []
    ensures Follows(s, t')
  {
    ReadNext(t, t', s.conn.cursor);
    RecordsNext(ReadSince(t, s.conn.cursor), e, s.conn.lastSeq);
  }

  lemma NothingToRead(t: System)
    requires t.conn.phase == Following && t.conn.cursor >= |t.hub.sent|
    ensures Step(t, TaskStep).hub == t.hub && Step(t, TaskStep).conn == t.conn
  {}

  lemma FollowOne(s: System, t: System)
    requires Follows(s, t) && |t.hub.sent| - t.conn.cursor <= RING_CAPACITY
    ensures Follows(s, Step(t, TaskStep))
  {
    if t.conn.cursor < |t.hub.sent| {
      FollowTurn(t);
      FollowsNext(s, t, Step(t, TaskStep), t.hub.sent[t.conn.cursor]);
    } else {
      NothingToRead(t);
      FollowsStill(s, t, Step(t, TaskStep));
    }
  }

  lemma OthersGoOn(s: System, a: Action)
    requires s.conn.phase == Following && !a.TaskStep? && !a.Drop?
    ensures Step(s, a).conn == s.conn && s.hub.sent <= Step(s, a).hub.sent
  {}

  lemma FollowsStill(s: System, t: System, t': System)
    requires Follows(s, t) && t'.conn == t.conn && t.hub.sent <= t'.hub.sent
    ensures Follows(s, t')
  {
    assert ReadSince(t', s.conn.cursor) == ReadSince(t, s.conn.cursor);
  }

  /** In every interleaving of publishers, a socket that keeps up with the ring writes exactly the
      records of what is sent. */
  lemma {:induction false} FollowerWritesRecords(s: System, actions: seq<Action>)
    requires s.conn.phase == Following && s.conn.cursor <= |s.hub.sent| && KeepsUp(s, actions)
    ensures Follows(s, Run(s, actions))
  {
    if actions == [] {
      assert s.hub.sent[s.conn.cursor..s.conn.cursor] == [];
    } else {
      var n := |actions| - 1;
      var u, a := Run(s, actions[..n]), actions[n];
      FollowerWritesRecords(s, actions[..n]);
      if a.TaskStep? {
        FollowOne(s, u);
      } else {
        OthersGoOn(u, a);
        FollowsStill(s, u, Step(u, a));
      }
    }
  }

  lemma CursorStep(s: System, a: Action)
    requires s.conn.cursor <= |s.hub.sent|
    ensures Step(s, a).conn.cursor <= |Step(s, a).hub.sent|
  {}

  lemma {:induction false} CursorStaysInRing(s: System, actions: seq<Action>)
    requires Start(s)
    ensures Run(s, actions).conn.cursor <= |Run(s, actions).hub.sent|
  {
    if actions != [] {
      var n := |actions| - 1;
      CursorStaysInRing(s, actions[..n]);
      CursorStep(Run(s, actions[..n]), actions[n]);
    }
  }

  /** After any history, an event read by a socket that keeps up is written exactly when its number
      exceeds the socket's position and every number sent before it on this connection. */
  lemma EventIsWrittenIff(s: System, before: seq<Action>, actions: seq<Action>, e: Event)
    requires Start(s) && Run(s, before).conn.phase == Following && KeepsUp(Run(s, before), actions)
    ensures var u, t := Run(s, before), Run(Run(s, before), actions);
            && u.conn.wire <= t.conn.wire
            && (e in t.conn.wire[|u.conn.wire|..] <==>
                  exists i: nat :: Leads(ReadSince(t, u.conn.cursor), u.conn.lastSeq, i, e))
  {
    var u := Run(s, before);
    var t := Run(u, actions);
    CursorStaysInRing(s, before);
    FollowerWritesRecords(u, actions);
    RecordsMean(ReadSince(t, u.conn.cursor), u.conn.lastSeq, e);
    assert t.conn.wire[|u.conn.wire|..] == Records(ReadSince(t, u.conn.cursor), u.conn.lastSeq);
  }

  /** An event that is overtaken wherever it is sent is not written on this connection. */
  lemma OvertakenIsNotWritten(s: System, before: seq<Action>, actions: seq<Action>, e: Event)
    requires Start(s) && Run(s, before).conn.phase == Following && KeepsUp(Run(s, before), actions)
    requires var u, t := Run(s, before), Run(Run(s, before), actions);
             var read := ReadSince(t, u.conn.cursor);
             forall i :: 0 <= i < |read| && read[i] == e ==> exists j :: 0 <= j < i && read[j].id > e.id
    ensures var u, t := Run(s, before), Run(Run(s, before), actions);
            u.conn.wire <= t.conn.wire && e !in t.conn.wire[|u.conn.wire|..]
  {
    var u := Run(s, before);
    var t := Run(u, actions);
    EventIsWrittenIff(s, before, actions, e);
    var read := ReadSince(t, u.conn.cursor);
    forall i: nat ensures !Leads(read, u.conn.lastSeq, i, e) {
      if i < |read| && read[i] == e {
        var j :| 0 <= j < i && read[j].id > e.id;
      }
    }
  }

  const FRESH_SYSTEM := System(Hub([], [], [], []), NO_CONN, [], Browser(0, [], false))
  const OPENING := [Connect, TaskStep, TaskStep, Receive]
  const OVERTAKING := [NumberOne("a"), NumberOne("b"), PushOne(1), SendOne(1)]
  const OVERTAKEN := [TaskStep, TaskStep, Receive, PushOne(0), SendOne(0)]

  /** Overlapping publishers can lose an event for good: event 2 is numbered first but sent after
      event 3, and no continuation ever delivers it. */
  lemma OvertakingLosesAnEvent(rest: seq<Action>)
    ensures Start(FRESH_SYSTEM)
    ensures var s := Run(Run(Run(FRESH_SYSTEM, OPENING), OVERTAKING), OVERTAKEN);
            && Event(2, "a") in s.hub.sent
            && Event(2, "a") !in Run(s, rest).browser.delivered
  {
    Opening();
    Overtaking(Run(FRESH_SYSTEM, OPENING));
    var s := Run(Run(Run(FRESH_SYSTEM, OPENING), OVERTAKING), OVERTAKEN);
    Overtaken(Run(Run(FRESH_SYSTEM, OPENING), OVERTAKING));
    LostStaysLost(s, rest, 2);
  }

  lemma FirstAnnouncement()
    ensures var c := Event(1, CONNECTED);
            Announce(FRESH_SYSTEM.hub, NO_CONN.(phase := Replaying)) ==
            Turn(Hub([c], [c], [c], []), Conn(Following, 0, 1, [], [c], 0, 0, 0, 0), [c])
  {
    PublishSerial(FRESH_SYSTEM.hub, CONNECTED);
  }

  lemma Opening()
    ensures var s := Run(FRESH_SYSTEM, OPENING); var c := Event(1, CONNECTED);
            && s.hub == Hub([c], [c], [c], [])
            && s.conn.phase == Following && s.conn.cursor == 0 && s.conn.lastSeq == 1
            && s.inflight == [] && s.browser == Browser(1, [c], false)
  {
    var s1 := Step(FRESH_SYSTEM, Connect);
    var s2 := Step(s1, TaskStep);
    FreshReplays();
    FirstAnnouncement();
    var s3 := Step(s2, TaskStep);
    var s4 := Step(s3, Receive);
    RunFromStates([FRESH_SYSTEM, s1, s2, s3, s4], OPENING);
  }

  lemma Overtaking(s: System)
    requires s.hub == Hub([Event(1, CONNECTED)], [Event(1, CONNECTED)], [Event(1, CONNECTED)], [])
    ensures var t := Run(s, OVERTAKING); var c := Event(1, CONNECTED); var e2, e3 := Event(2, "a"), Event(3, "b");
            && t == s.(hub := Hub([c, e2, e3], [c, e3], [c, e3], [Publication(e2, Numbered)]))
  {
    var c, e2, e3 := Event(1, CONNECTED), Event(2, "a"), Event(3, "b");
    var s1 := Step(s, NumberOne("a"));
    var s2 := Step(s1, NumberOne("b"));
    assert s2.hub.pending == [Publication(e2, Numbered), Publication(e3, Numbered)];
    var s3 := Step(s2, PushOne(1));
    assert s3.hub.history == [c, e3];
    var s4 := Step(s3, SendOne(1));
    assert s4.hub.pending == [Publication(e2, Numbered)];
    RunFromStates([s, s1, s2, s3, s4], OVERTAKING);
  }

  /** The socket reads the later event, and the browser gets it. */
  lemma SocketReads(s: System)
    requires var c := Event(1, CONNECTED); var e2, e3 := Event(2, "a"), Event(3, "b");
             && s.hub == Hub([c, e2, e3], [c, e3], [c, e3], [Publication(e2, Numbered)])
             && s.conn.phase == Following && s.conn.cursor == 0 && s.conn.lastSeq == 1
             && s.inflight == [] && s.browser == Browser(1, [c], false)
    ensures var t := Step(Step(Step(s, TaskStep), TaskStep), Receive);
            t.hub == s.hub && t.browser == Browser(3, [Event(1, CONNECTED), Event(3, "b")], false)
  {
    var s1 := Step(s, TaskStep);
    assert s1 == s.(conn := s.conn.(cursor := 1));
    var s2 := Step(s1, TaskStep);
    assert s2.hub == s.hub && s2.inflight == [Event(3, "b")];
  }

  /** The publisher of the earlier one goes on. */
  lemma PublisherEnds(s: System)
    requires var c := Event(1, CONNECTED); var e2, e3 := Event(2, "a"), Event(3, "b");
             s.hub == Hub([c, e2, e3], [c, e3], [c, e3], [Publication(e2, Numbered)])
    ensures var t := Step(Step(s, PushOne(0)), SendOne(0));
            t.hub.sent == [Event(1, CONNECTED), Event(3, "b"), Event(2, "a")] && t.browser == s.browser
  {
    assert Step(s, PushOne(0)).hub.pending == [Publication(Event(2, "a"), Pushed)];
  }

  lemma Overtaken(s: System)
    requires var c := Event(1, CONNECTED); var e2, e3 := Event(2, "a"), Event(3, "b");
             && s.hub == Hub([c, e2, e3], [c, e3], [c, e3], [Publication(e2, Numbered)])
             && s.conn.phase == Following && s.conn.cursor == 0 && s.conn.lastSeq == 1
             && s.inflight == [] && s.browser == Browser(1, [c], false)
    ensures var t := Run(s, OVERTAKEN);
            && t.hub.sent == [Event(1, CONNECTED), Event(3, "b"), Event(2, "a")]
            && t.browser == Browser(3, [Event(1, CONNECTED), Event(3, "b")], false)
  {
    var s2 := Step(Step(s, TaskStep), TaskStep);
    var s3 := Step(s2, Receive);
    SocketReads(s);
    PublisherEnds(s3);
    var s4 := Step(s3, PushOne(0));
    RunFromStates([s, Step(s, TaskStep), s2, s3, s4, Step(s4, SendOne(0))], OVERTAKEN);
  }

  lemma {:induction false} RunFromStates(states: seq<System>, actions: seq<Action>)
    requires |states| == |actions| + 1
    requires forall i :: 0 <= i < |actions| ==> states[i + 1] == Step(states[i], actions[i])
    ensures Run(states[0], actions) == states[|actions|]
  {
    if actions != [] {
      RunFromStates(states[..|actions|], actions[..|actions| - 1]);
    }
  }

  lemma DeliveredIsBelow(s: System)
    requires SafeInv(s, 0)
    ensures forall e :: e in s.browser.delivered ==> e.id <= s.browser.lastSeq
  {
    forall e | e in s.browser.delivered ensures e.id <= s.browser.lastSeq {
      var i :| 0 <= i < |s.browser.delivered| && s.browser.delivered[i] == e;
      RisingAtMost(s.browser.delivered, i);
    }
  }

  /** An event published between replay and announcement is passed over: if the browser then
      receives the connected event, no continuation ever delivers it. */
  lemma WindowLosesAnEvent(s: System, rest: seq<Action>)
    requires SerialHub(s.hub) && ConnInv(s.hub, s.conn) && SafeInv(s, 0)
    requires s.conn.phase == Replaying && s.conn.backlog == [] && s.inflight == []
    requires s.browser.lastSeq == s.conn.lastSeq < |s.hub.log|
    ensures var t := Step(Step(s, TaskStep), Receive);
            && t.browser.delivered == s.browser.delivered + [Event(|s.hub.log| + 1, CONNECTED)]
            && (forall e :: e in Run(t, rest).browser.delivered ==> e.id != s.conn.lastSeq + 1)
  {
    PublishSerial(s.hub, CONNECTED);
    var u := Step(s, TaskStep);
    assert u.inflight == [Event(|s.hub.log| + 1, CONNECTED)];
    var t := Step(u, Receive);
    assert t.browser.delivered == s.browser.delivered + [u.inflight[0]];
    DeliveredIsBelow(s);
    LostStaysLost(t, rest, s.conn.lastSeq + 1);
  }

  const UNLUCKY := [Connect, TaskStep, PublishWhole("x")]

  lemma FreshReplays()
    ensures Step(Step(FRESH_SYSTEM, Connect), TaskStep) == FRESH_SYSTEM.(conn := NO_CONN.(phase := Replaying))
  {
    assert Step(FRESH_SYSTEM, Connect) == FRESH_SYSTEM.(conn := NO_CONN.(phase := Subscribed));
  }

  lemma UnluckyState()
    ensures var x := Event(1, "x");
            Run(FRESH_SYSTEM, UNLUCKY) ==
            System(Hub([x], [x], [x], []), NO_CONN.(phase := Replaying), [], Browser(0, [], false))
  {
    var s1 := Step(FRESH_SYSTEM, Connect);
    var s2 := Step(s1, TaskStep);
    FreshReplays();
    PublishSerial(FRESH_SYSTEM.hub, "x");
    RunFromStates([FRESH_SYSTEM, s1, s2, Step(s2, PublishWhole("x"))], UNLUCKY);
  }

  /** Such a moment comes: a fresh controller, one connection and one publication at the wrong time. */
  lemma WindowIsReached()
    ensures var s := Run(FRESH_SYSTEM, UNLUCKY);
            && Start(FRESH_SYSTEM)
            && SerialHub(s.hub) && ConnInv(s.hub, s.conn) && SafeInv(s, 0)
            && s.conn.phase == Replaying && s.conn.backlog == [] && s.inflight == []
            && s.browser.lastSeq == s.conn.lastSeq < |s.hub.log|
  {
    UnluckyState();
  }

  /** The browser's filter by itself, for any sequence of messages from any server: a numbered
      message reaches the callback iff its number exceeds everything seen before. */
  function OnMessages(b: Browser, messages: seq<Event>): Browser {
    if messages == [] then b
    else OnMessage(OnMessages(b, messages[..|messages| - 1]), messages[|messages| - 1])
  }

  ghost predicate Fresh(b: Browser, messages: seq<Event>, i: nat)
    requires i < |messages|
  {
    messages[i].id == 0 ||
    (messages[i].id > b.lastSeq && forall j :: 0 <= j < i ==> messages[j].id < messages[i].id)
  }

  lemma {:induction false} FilterKeepsRecords(b: Browser, messages: seq<Event>)
    ensures forall j :: 0 <= j < |messages| ==> messages[j].id <= OnMessages(b, messages).lastSeq
    ensures var l := OnMessages(b, messages).lastSeq;
            l == b.lastSeq || (l > b.lastSeq && exists j :: 0 <= j < |messages| && messages[j].id == l)
    ensures messages != [] ==>
              var i := |messages| - 1;
              OnMessages(b, messages).delivered ==
                OnMessages(b, messages[..i]).delivered + if Fresh(b, messages, i) then [messages[i]] else []
  {
    if messages != [] {
      var i := |messages| - 1;
      FilterKeepsRecords(b, messages[..i]);
      assert forall j :: 0 <= j < i ==> messages[..i][j] == messages[j];
      var l := OnMessages(b, messages[..i]).lastSeq;
      if l > b.lastSeq {
        var j :| 0 <= j < i && messages[..i][j].id == l;
        assert messages[j].id == l;
      }
    }
  }
}
