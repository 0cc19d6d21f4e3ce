/** What the server's event loop guarantees about its session table across events. */
module ServerProperties {
  import opened Bytes
  import opened Wrappers
  import opened Session
  import opened Server

  /** Removing a session keeps the table invariant. */
  lemma RemoveAtKeepsInv(st: State, i: nat)
    requires Inv(st) && i < |st.conns|
    ensures Inv(st.(conns := RemoveAt(st.conns, i)))
  {
    var r := RemoveAt(st.conns, i);
    forall a, b | 0 <= a < b < |r|
      ensures r[a].addr != r[b].addr && r[a].id != r[b].id
    {
      var a' := if a < i then a else a + 1;
      var b' := if b < i then b else b + 1;
      assert r[a] == st.conns[a'] && r[b] == st.conns[b'];
    }
  }

  /** Replacing a session by one with the same identity and address that is still settled
      keeps the table invariant. */
  lemma ReplaceKeepsInv(st: State, i: nat, n: Node)
    requires Inv(st) && i < |st.conns|
    requires n.id == st.conns[i].id && n.addr == st.conns[i].addr && Settled(n)
    ensures Inv(st.(conns := st.conns[i := n]))
  {
  }

  /** A datagram keeps the table invariant: the session it reaches stays settled, and a new
      session either settles (handshake accepted) or leaves again at once. */
  lemma DatagramKeepsInv(l: Listener, st: State, now: nat, from: Addr, result: ReadResult)
    requires Inv(st)
    ensures Inv(OnDatagram(l, st, now, from, result).state)
  {
    if !st.shuttingDown && result.ReadBytes? && |result.data| > 0 {
      var packet := result.data;
      match FindMatching(st.conns, from)
      case Some(i) =>
        var h := HandlePacket(l.secret, Reply(l), st.conns[i], packet, now);
        ReplaceKeepsInv(st, i, h.node);
      case None =>
        var created := State(st.conns + [NewNode(st.nextId, from)], st.nextId + 1, st.shuttingDown);
        var h := HandlePacket(l.secret, Reply(l), created.conns[|st.conns|], packet, now);
        if h.alive {
          var next := created.(conns := created.conns[|st.conns| := h.node]);
          assert next.conns == st.conns + [h.node];
          assert Inv(next);
        } else {
          assert RemoveAt(created.conns, |st.conns|) == st.conns;
        }
    }
  }

  /** Every event keeps the table invariant. */
  lemma StepKeepsInv(l: Listener, st: State, ev: Event)
    requires Inv(st)
    ensures Inv(Step(l, st, ev).state)
  {
    match ev
    case Datagram(now, from, result) => DatagramKeepsInv(l, st, now, from, result);
    case TimerFired(now, id) =>
      match FindNode(st.conns, id) {
        case Some(i) => RemoveAtKeepsInv(st, i);
        case None =>
      }
    case PollReady(id, status, readable, writable) =>
      match FindNode(st.conns, id) {
        case Some(i) =>
          var p := OnPoll(st.conns[i], status, readable, writable);
          ReplaceKeepsInv(st, i, p.0);
        case None =>
      }
    case TunReadDone(id, result) =>
    case Signal =>
  }

  /** From a table that satisfies the invariant — the empty one included — every run of
      events reaches a table that satisfies it: at most one session per address, and every
      session in the table verified. */
  lemma {:induction false} RunKeepsInv(l: Listener, st: State, events: seq<Event>)
    requires Inv(st)
    ensures Inv(Run(l, st, events).state)
    decreases |events|
  {
    if |events| > 0 {
      RunKeepsInv(l, st, events[..|events| - 1]);
      StepKeepsInv(l, Run(l, st, events[..|events| - 1]).state, events[|events| - 1]);
    }
  }

  /** The server starts with no session, which satisfies the invariant. */
  lemma InitialInv()
    ensures Inv(Initial)
  {
  }

  /** A datagram from an address that has a session goes to that session, which stays in its
      place; no session is created or removed. */
  lemma DatagramReusesSession(l: Listener, st: State, now: nat, from: Addr, packet: seq<byte>, i: nat)
    requires Inv(st) && !st.shuttingDown && |packet| > 0
    requires i < |st.conns| && st.conns[i].addr == from
    ensures var r := OnDatagram(l, st, now, from, ReadBytes(packet));
            var h := HandlePacket(l.secret, Reply(l), st.conns[i], packet, now);
            && r.state.conns == st.conns[i := h.node]
            && r.state.nextId == st.nextId
            && r.out == h.out
  {
    assert FindMatching(st.conns, from) == Some(i);
  }

  /** client_node_shutdown from the table's side is idempotent. */
  lemma CloseSessionIdempotent(st: State, id: nat)
    requires Inv(st)
    ensures CloseSession(CloseSession(st, id), id) == CloseSession(st, id)
  {
    match FindNode(st.conns, id)
    case Some(i) =>
      var r := CloseSession(st, id);
      forall j | 0 <= j < |r.conns|
        ensures r.conns[j].id != id
      {
        var j' := if j < i then j else j + 1;
        assert r.conns[j] == st.conns[j'];
      }
    case None =>
  }

  /** listener_ctx_shutdown is idempotent: a second signal changes nothing. */
  lemma ListenerShutdownIdempotent(l: Listener, st: State)
    ensures var once := Step(l, st, Signal);
            Step(l, once.state, Signal) == Stepped(once.state, [])
  {
  }

  /** After the listener has shut down no event changes anything or produces any traffic. */
  lemma QuietAfterShutdown(l: Listener, st: State, ev: Event)
    requires Inv(st) && st.shuttingDown
    ensures Step(l, st, ev) == Stepped(st, [])
  {
  }

  /** A session that has just accepted a packet at `now` is shut down by its timer exactly
      when the timer fires at or after `now` + IDLE_MAX_MS. */
  lemma ExpiryAfterIdle(l: Listener, st: State, now: nat, from: Addr, packet: seq<byte>, i: nat, t: nat)
    requires Inv(st)
    requires var s := OnDatagram(l, st, now, from, ReadBytes(packet)).state;
             i < |s.conns| && s.conns[i].addr == from && |packet| > 0
    ensures var s := OnDatagram(l, st, now, from, ReadBytes(packet)).state;
            var id := s.conns[i].id;
            && (t < now + IdleMaxMs ==> OnTimer(s, t, id) == Stepped(s, []))
            && (t >= now + IdleMaxMs ==> OnTimer(s, t, id).state.conns == RemoveAt(s.conns, i))
  {
    var s := OnDatagram(l, st, now, from, ReadBytes(packet)).state;
    DatagramKeepsInv(l, st, now, from, ReadBytes(packet));
    var id := s.conns[i].id;
    assert FindNode(s.conns, id) == Some(i);
    assert s.conns[i].timer == Armed(now + IdleMaxMs) by {
      var m := FindMatching(st.conns, from);
      if m.Some? {
        DatagramReusesSession(l, st, now, from, packet, m.value);
      }
    }
  }
}
