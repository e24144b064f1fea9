/** The objects that carry the event stream, each proved against the step system. */
module EventRuntime {
  import opened EventProtocol
  import opened Numbers

  lemma AfterOfRest(events: seq<Event>, history: seq<Event>, i: nat, id: nat)
    requires i < |history|
    ensures events + After(history[i..], id) ==
            (if history[i].id > id then events + [history[i]] else events) + After(history[i + 1..], id)
  {
    assert history[i..][0] == history[i] && history[i..][1..] == history[i + 1..];
    assert [] + After(history[i + 1..], id) == After(history[i + 1..], id);
  }

  /** The shared counter, history and ring; `log` only records what was numbered. */
  class EventHub {
    var counter: nat
    var history: seq<Event>
    var sent: seq<Event>
    ghost var log: seq<Event>

    ghost predicate Valid()
      reads this
    {
      counter == |log|
    }

    ghost function View(): Hub
      reads this
    {
      Hub(log, history, sent, [])
    }

    constructor ()
      ensures Valid() && View() == Hub([], [], [], [])
    {
      counter, history, sent, log := 0, [], [], [];
    }

    method PublishEvent(body: string) returns (e: Event)
      requires Valid()
      modifies this
      ensures Valid() && View() == Publish(old(View()), body)
      ensures e == Event(old(counter) + 1, body)
    {
      counter := counter + 1;
      e := Event(counter, body);
      log := log + [e];
      history := history + [e];
      ghost var pushed := history;
      while |history| > HISTORY_LIMIT
        invariant KeepLast(history, HISTORY_LIMIT) == KeepLast(pushed, HISTORY_LIMIT)
        invariant counter == |log| && log == old(log) + [e] && sent == old(sent)
      {
        history := history[1..];
      }
      sent := sent + [e];
      ghost var numbered := Number(old(View()), body);
      assert numbered.pending == [Publication(e, Numbered)];
      assert Push(numbered, 0).pending == [Publication(e, Pushed)];
    }

    method Snapshot(afterId: nat) returns (events: seq<Event>)
      ensures events == After(history, afterId)
    {
      events := [];
      var i := 0;
      while i < |history|
        invariant 0 <= i <= |history|
        invariant events + After(history[i..], afterId) == After(history, afterId)
      {
        AfterOfRest(events, history, i, afterId);
        if history[i].id > afterId {
          events := events + [history[i]];
        }
        i := i + 1;
      }
    }
  }

  /** What runs behind one socket. */
  class SocketTask {
    var phase: Phase
    var cursor: nat
    var lastSeq: nat
    var backlog: seq<Event>
    var wire: seq<Event>
    ghost var base: nat
    ghost var mark: nat
    ghost var windowLoss: nat
    ghost var trimLoss: nat

    ghost function View(): Conn
      reads this
    {
      Conn(phase, cursor, lastSeq, backlog, wire, base, mark, windowLoss, trimLoss)
    }

    constructor (hub: EventHub)
      ensures View() == Subscribe(hub.View())
    {
      phase, cursor, lastSeq, backlog, wire := Subscribed, |hub.sent|, 0, [], [];
      base, mark, windowLoss, trimLoss := 0, 0, 0, 0;
    }

    method Write(e: Event) returns (out: seq<Event>)
      modifies this`wire
      ensures wire == old(wire) + [e] && out == [e]
    {
      wire := wire + [e];
      out := [e];
    }

    /** One turn: replay, announce, follow, or refill after an overrun of the ring. */
    method Turn(hub: EventHub) returns (out: seq<Event>)
      requires hub.Valid() && !phase.Announcing?
      modifies this, hub
      ensures hub.Valid()
      ensures var t := TaskTurn(old(hub.View()), old(View()));
              hub.View() == t.hub && View() == t.conn && out == t.out
    {
      out := [];
      match phase
      case Down =>
      case Announcing(_) =>
      case Subscribed =>
        backlog := hub.Snapshot(0);
        base := |hub.log| - Min(|hub.log|, |hub.history|);
        phase := Replaying;
      case Replaying =>
        if backlog != [] {
          lastSeq := Max(lastSeq, backlog[0].id);
          out := Write(backlog[0]);
          backlog := backlog[1..];
        } else {
          var connected := hub.PublishEvent(CONNECTED);
          PublishLogs(old(hub.View()), CONNECTED);
          windowLoss := if connected.id > lastSeq then connected.id - 1 - lastSeq else 0;
          mark := |wire|;
          lastSeq := Max(lastSeq, connected.id);
          out := Write(connected);
          phase := Following;
        }
      case Following =>
        if cursor < |hub.sent| {
          if |hub.sent| - cursor > RING_CAPACITY {
            cursor := |hub.sent| - RING_CAPACITY;
            phase := Lagged;
          } else {
            var e := hub.sent[cursor];
            cursor := cursor + 1;
            if e.id > lastSeq {
              lastSeq := e.id;
              out := Write(e);
            }
          }
        }
      case Lagged =>
        backlog := hub.Snapshot(lastSeq);
        trimLoss := trimLoss + Overrun(hub.View(), View());
        phase := Refilling;
      case Refilling =>
        if backlog == [] {
          phase := Following;
        } else {
          lastSeq := backlog[0].id;
          out := Write(backlog[0]);
          backlog := backlog[1..];
        }
    }
  }

  lemma PublishLogs(h: Hub, body: string)
    ensures Publish(h, body).log == h.log + [Event(|h.log| + 1, body)]
  {}

  datatype Message = Garbled | Payload(event: Event)

  /** The browser's side: duplicates are dropped by number, a close schedules a reconnect. */
  class EventStreamClient {
    var lastSeq: nat
    var stopped: bool
    var open: bool
    var waiting: bool
    var delivered: seq<Event>

    ghost function View(): Browser
      reads this
    {
      Browser(lastSeq, delivered, stopped)
    }

    /** Until it is stopped the client is connected or about to reconnect, and never both. */
    ghost predicate Valid()
      reads this
    {
      if stopped then !waiting else open != waiting
    }

    constructor (initial: nat)
      ensures Valid() && View() == Browser(initial, [], false) && open
    {
      lastSeq, stopped, open, waiting, delivered := initial, false, true, false, [];
    }

    method Receive(m: Message)
      requires Valid()
      modifies this`lastSeq, this`delivered
      ensures Valid() && View() == if m.Payload? then OnMessage(old(View()), m.event) else old(View())
    {
      if m.Payload? {
        var id := m.event.id;
        if id != 0 && id <= lastSeq {
          return;
        }
        lastSeq := Max(lastSeq, id);
        delivered := delivered + [m.event];
      }
    }

    /** The connection breaks. */
    method Closed()
      requires Valid() && open
      modifies this`open, this`waiting
      ensures Valid() && !open
      ensures forall s: System :: s.browser == old(View()) ==> Step(s, Drop).browser == View()
    {
      open := false;
      if !stopped {
        waiting := true;
      }
    }

    /** The timer fires: the client connects exactly when the step system does. */
    method Fire()
      requires Valid() && waiting
      modifies this`open, this`waiting
      ensures Valid() && View() == old(View())
      ensures forall s: System :: s.browser == View() && s.conn.phase == Down ==>
              (Step(s, Connect).conn.phase == Subscribed <==> open)
    {
      waiting := false;
      if stopped { return; }
      open := true;
    }

    /** A stopped client never connects again: no timer is armed, and none will be. */
    method Stop()
      requires Valid()
      modifies this`stopped, this`waiting
      ensures Valid() && View() == old(View()).(stopped := true)
      ensures forall s: System :: s.browser == old(View()) ==> Step(s, Action.Stop).browser == View()
    {
      stopped := true;
      waiting := false;
    }
  }
}
