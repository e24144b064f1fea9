/**
 The live event stream of the setup controller, as a step system.

 Publishers number an event, push it to a bounded history and hand it to a bounded broadcast
 ring. A socket task subscribes, replays the history, announces itself with a "connected" event
 and then follows the ring, refilling from the history whenever the ring overran it. The browser
 drops whatever it has already seen and reconnects after a close.
 */
module EventProtocol {
  import opened Numbers

  const HISTORY_LIMIT: nat := 2000
  const RING_CAPACITY: nat := 128
  const CONNECTED := "connected"

  /** `id` is the `seq` field of the source, `body` stands for all other fields. */
  datatype Event = Event(id: nat, body: string)

  datatype Stage = Numbered | Pushed

  /** A call of `publish_event` that has not returned yet. */
  datatype Publication = Publication(event: Event, stage: Stage)

  /** `log` holds every numbered event in number order, so the source's counter is `|log|`.
      `sent` holds everything ever handed to the ring; the ring retains its last 128 entries. */
  datatype Hub = Hub(log: seq<Event>, history: seq<Event>, sent: seq<Event>, pending: seq<Publication>)

  datatype Phase = Down | Subscribed | Replaying | Announcing(connected: Event) | Following | Lagged | Refilling

  /** A socket task. `cursor` is the receiver's position in `sent`, `backlog` the part of a history
      snapshot still to be written and `wire` everything written on this connection.
      The last four fields record the past and are never read by the socket task: `base` events were
      already gone from the history when it was replayed, `mark` is the place of the connected
      event in `wire`, `windowLoss` counts the events published between replay and announcement,
      `trimLoss` those that had left the history before a refill could fetch them. */
  datatype Conn = Conn(phase: Phase, cursor: nat, lastSeq: nat, backlog: seq<Event>, wire: seq<Event>,
                       base: nat, mark: nat, windowLoss: nat, trimLoss: nat)

  datatype Browser = Browser(lastSeq: nat, delivered: seq<Event>, stopped: bool)

  datatype System = System(hub: Hub, conn: Conn, inflight: seq<Event>, browser: Browser)

  /* ---- publishing ---- */

  function KeepLast(s: seq<Event>, n: nat): seq<Event> {
    if |s| <= n then s else s[|s| - n..]
  }

  function Number(h: Hub, body: string): Hub {
    var e := Event(|h.log| + 1, body);
    h.(log := h.log + [e], pending := h.pending + [Publication(e, Numbered)])
  }

  function Push(h: Hub, i: nat): Hub {
    if i < |h.pending| && h.pending[i].stage == Numbered then
      h.(history := KeepLast(h.history + [h.pending[i].event], HISTORY_LIMIT),
         pending := h.pending[i := h.pending[i].(stage := Pushed)])
    else h
  }

  function Send(h: Hub, i: nat): Hub {
    if i < |h.pending| && h.pending[i].stage == Pushed then
      h.(sent := h.sent + [h.pending[i].event], pending := h.pending[..i] + h.pending[i + 1..])
    else h
  }

  /** The three stages of one publication without interruption. */
  function Publish(h: Hub, body: string): Hub {
    var i := |h.pending|;
    Send(Push(Number(h, body), i), i)
  }

  /** The events of a history numbered above `id`, in history order. */
  function After(history: seq<Event>, id: nat): seq<Event> {
    if history == [] then []
    else (if history[0].id > id then [history[0]] else []) + After(history[1..], id)
  }

  /* ---- the socket task ---- */

  const NO_CONN := Conn(Down, 0, 0, [], [], 0, 0, 0, 0)

  datatype Turn = Turn(hub: Hub, conn: Conn, out: seq<Event>)

  function Subscribe(h: Hub): Conn {
    NO_CONN.(phase := Subscribed, cursor := |h.sent|)
  }

  /** The connected event has been published: write it and start following. */
  function Announced(h: Hub, k: Conn, connected: Event): Turn {
    Turn(h,
         k.(phase := Following, lastSeq := Max(k.lastSeq, connected.id), wire := k.wire + [connected],
            mark := |k.wire|,
            windowLoss := if connected.id > k.lastSeq then connected.id - 1 - k.lastSeq else 0),
         [connected])
  }

  function Follow(h: Hub, k: Conn): Turn {
    if k.cursor >= |h.sent| then Turn(h, k, [])
    else if |h.sent| - k.cursor > RING_CAPACITY then
      Turn(h, k.(phase := Lagged, cursor := |h.sent| - RING_CAPACITY), [])
    else
      var e := h.sent[k.cursor];
      if e.id > k.lastSeq then
        Turn(h, k.(cursor := k.cursor + 1, lastSeq := e.id, wire := k.wire + [e]), [e])
      else Turn(h, k.(cursor := k.cursor + 1), [])
  }

  function Replay(h: Hub, k: Conn): Conn {
    k.(phase := Replaying, backlog := After(h.history, 0), base := |h.log| - Min(|h.log|, |h.history|))
  }

  function WriteReplayed(h: Hub, k: Conn): Turn
    requires k.backlog != []
  {
    var e := k.backlog[0];
    Turn(h, k.(backlog := k.backlog[1..], lastSeq := Max(k.lastSeq, e.id), wire := k.wire + [e]), [e])
  }

  function Announce(h: Hub, k: Conn): Turn {
    var h' := Publish(h, CONNECTED);
    Announced(h', k, h'.log[|h.log|])
  }

  function Refill(h: Hub, k: Conn): Conn {
    k.(phase := Refilling, backlog := After(h.history, k.lastSeq), trimLoss := k.trimLoss + Overrun(h, k))
  }

  function WriteRefilled(h: Hub, k: Conn): Turn
    requires k.backlog != []
  {
    var e := k.backlog[0];
    Turn(h, k.(backlog := k.backlog[1..], lastSeq := e.id, wire := k.wire + [e]), [e])
  }

  /** How many of the events a refill should fetch have already left the history. */
  function Overrun(h: Hub, k: Conn): nat {
    if |h.log| > k.lastSeq + HISTORY_LIMIT then |h.log| - k.lastSeq - HISTORY_LIMIT else 0
  }

  /** One uninterrupted turn of a socket task; one that has to wait stays as it is. */
  function TaskTurn(h: Hub, k: Conn): Turn {
    match k.phase
    case Down => Turn(h, k, [])
    case Subscribed => Turn(h, Replay(h, k), [])
    case Replaying => if k.backlog == [] then Announce(h, k) else WriteReplayed(h, k)
    case Announcing(connected) =>
      if exists p :: p in h.pending && p.event == connected then Turn(h, k, [])
      else Announced(h, k, connected)
    case Following => Follow(h, k)
    case Lagged => Turn(h, Refill(h, k), [])
    case Refilling => if k.backlog == [] then Turn(h, k.(phase := Following), []) else WriteRefilled(h, k)
  }

  /* ---- the browser ---- */

  function OnMessage(b: Browser, e: Event): Browser {
    if e.id != 0 && e.id <= b.lastSeq then b
    else b.(lastSeq := Max(b.lastSeq, e.id), delivered := b.delivered + [e])
  }

  /* ---- the whole system ---- */

  datatype Action =
    | PublishWhole(body: string)      // a publication nothing interleaves with
    | NumberOne(body: string)         // the three stages of a publication that others interleave with
    | PushOne(index: nat)
    | SendOne(index: nat)
    | AnnounceSlowly                  // a socket's own announcement, in stages
    | Connect
    | TaskStep
    | Receive
    | Drop                            // the connection breaks; what is in flight is lost
    | Stop

  function Step(s: System, a: Action): System {
    match a
    case PublishWhole(body) => s.(hub := Publish(s.hub, body))
    case NumberOne(body) => s.(hub := Number(s.hub, body))
    case PushOne(i) => s.(hub := Push(s.hub, i))
    case SendOne(i) => s.(hub := Send(s.hub, i))
    case AnnounceSlowly =>
      if s.conn.phase == Replaying && s.conn.backlog == [] then
        var h := Number(s.hub, CONNECTED);
        s.(hub := h, conn := s.conn.(phase := Announcing(h.log[|s.hub.log|])))
      else s
    case Connect =>
      if s.conn.phase == Down && !s.browser.stopped then s.(conn := Subscribe(s.hub)) else s
    case TaskStep =>
      var t := TaskTurn(s.hub, s.conn);
      s.(hub := t.hub, conn := t.conn, inflight := s.inflight + t.out)
    case Receive =>
      if s.inflight == [] then s
      else s.(browser := OnMessage(s.browser, s.inflight[0]), inflight := s.inflight[1..])
    case Drop => s.(conn := NO_CONN, inflight := [])
    case Stop => s.(browser := s.browser.(stopped := true))
  }

  function Run(s: System, actions: seq<Action>): System {
    if actions == [] then s
    else Step(Run(s, actions[..|actions| - 1]), actions[|actions| - 1])
  }

  /** Publications never overlap: every one of them is a single step. */
  predicate Serialised(a: Action) {
    !(a.NumberOne? || a.PushOne? || a.SendOne? || a.AnnounceSlowly?)
  }

  /** What a lossless step needs: at a replay and at a refill at most 2,000 events were missed,
      and nothing was published between the replay and the announcement. */
  predicate Keeps(s: System, a: Action) {
    a.TaskStep? ==>
      && (s.conn.phase == Subscribed ==> |s.hub.log| <= s.browser.lastSeq + HISTORY_LIMIT)
      && (s.conn.phase == Replaying && s.conn.backlog == [] ==> |s.hub.log| == s.conn.lastSeq)
      && (s.conn.phase == Lagged ==> |s.hub.log| <= s.conn.lastSeq + HISTORY_LIMIT)
  }

  predicate Lossless(s: System, actions: seq<Action>) {
    actions == [] ||
    (Lossless(s, actions[..|actions| - 1]) &&
     Keeps(Run(s, actions[..|actions| - 1]), actions[|actions| - 1]))
  }

  /** The controller between connections: any serially published past, any browser position in it. */
  ghost predicate Start(s: System) {
    && SerialHub(s.hub)
    && s.conn == NO_CONN && s.inflight == []
    && s.browser.delivered == [] && s.browser.lastSeq <= |s.hub.log|
  }

  ghost predicate SerialHub(h: Hub) {
    && h.pending == [] && h.sent == h.log
    && h.history == KeepLast(h.log, HISTORY_LIMIT)
    && NumberedFromOne(h.log)
  }

  ghost predicate NumberedFromOne(log: seq<Event>) {
    forall i :: 0 <= i < |log| ==> log[i].id == i + 1
  }
}
