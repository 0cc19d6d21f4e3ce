/** The ToyVpn server's session table and its event loop, one libuv callback per event:
    a datagram arrives, a session's timer fires, a session's poll reports events, a TUN read
    completes, or a signal shuts the listener down. */
module Server {
  import opened Bytes
  import opened Wrappers
  import opened Parameters
  import opened Session

  /** A parameter block together with the offset build_parameters returned for it. */
  type ParamBlock = p: Params | p.length <= |p.block| witness Params([], 0)

  /** The parts of `struct listener_ctx` the sessions consult. */
  datatype Listener = Listener(secret: seq<byte>, params: ParamBlock)

  /** What an accepted handshake sends back: the first `param_len` bytes of the block. */
  function Reply(l: Listener): (r: seq<byte>)
    ensures |r| == l.params.length && r <= l.params.block
  {
    l.params.block[..l.params.length]
  }

  /** The session table (`connections`, in creation order), the next node identity, and
      whether listener_ctx_shutdown has run. */
  datatype State = State(conns: seq<Node>, nextId: nat, shuttingDown: bool)

  const Initial: State := State([], 0, false)

  datatype Event =
    | Datagram(now: nat, from: Addr, result: ReadResult)       // on_incoming_node_read_done
    | TimerFired(now: nat, node: nat)                          // client_timeout_cb
    | PollReady(node: nat, status: int, readable: bool, writable: bool)  // tun_iface_poll_cb
    | TunReadDone(node: nat, result: ReadResult)               // on_client_node_tun_iface_read_done
    | Signal                                                   // on_signal

  datatype Stepped = Stepped(state: State, out: seq<Effect>)

  /** The first position in the table whose session `matches`, walking the table in order
      and stopping at the first hit. */
  function Position(conns: seq<Node>, matches: Node -> bool): (r: Option<nat>)
    ensures r.Some? ==> r.value < |conns| && matches(conns[r.value])
    ensures r.Some? ==> forall j :: 0 <= j < r.value ==> !matches(conns[j])
    ensures r.None? <==> forall j :: 0 <= j < |conns| ==> !matches(conns[j])
  {
    if |conns| == 0 then None
    else if matches(conns[0]) then Some(0)
    else match Position(conns[1..], matches)
      case Some(j) => Some(j + 1)
      case None => None
  }

  /** find_matching_connection over the whole table: the first session with this address
      (the traversal sets `stop` on a match). */
  function FindMatching(conns: seq<Node>, addr: Addr): (r: Option<nat>)
    ensures r.Some? ==> r.value < |conns| && conns[r.value].addr == addr
    ensures r.Some? ==> forall j :: 0 <= j < r.value ==> conns[j].addr != addr
    ensures r.None? <==> forall j :: 0 <= j < |conns| ==> conns[j].addr != addr
  {
    Position(conns, (n: Node) => n.addr == addr)
  }

  /** The position of the node with identity `id`, if it is still in the table. */
  function FindNode(conns: seq<Node>, id: nat): (r: Option<nat>)
    ensures r.Some? ==> r.value < |conns| && conns[r.value].id == id
    ensures r.None? <==> forall j :: 0 <= j < |conns| ==> conns[j].id != id
  {
    Position(conns, (n: Node) => n.id == id)
  }

  /** The table without the session at position `i`. */
  function RemoveAt(conns: seq<Node>, i: nat): (r: seq<Node>)
    requires i < |conns|
    ensures |r| == |conns| - 1
    ensures forall j :: 0 <= j < i ==> r[j] == conns[j]
    ensures forall j :: i <= j < |r| ==> r[j] == conns[j + 1]
  {
    conns[..i] + conns[i + 1..]
  }

  /** A session as it sits in the table between events: verified, live, its expiry timer
      running, its poll running whenever data waits for the TUN device. */
  predicate Settled(n: Node)
  {
    && n.verified && !n.shuttingDown && n.timer.Armed? && n.timeout == IdleMaxMs
    && (|n.incoming| > 0 ==> n.pollRunning)
  }

  /** The table invariant: at most one session per address, distinct identities below
      `nextId`, every session settled, and no session once the listener is shutting down. */
  predicate Inv(st: State)
  {
    && (forall i, j :: 0 <= i < j < |st.conns| ==> st.conns[i].addr != st.conns[j].addr)
    && (forall i, j :: 0 <= i < j < |st.conns| ==> st.conns[i].id != st.conns[j].id)
    && (forall i :: 0 <= i < |st.conns| ==> st.conns[i].id < st.nextId && Settled(st.conns[i]))
    && (st.shuttingDown ==> st.conns == [])
  }

  /** client_node_handle_incoming_packet on the session at position `i`; a session it shuts
      down leaves the table. */
  function Deliver(l: Listener, st: State, i: nat, packet: seq<byte>, now: nat): (r: Stepped)
    requires i < |st.conns|
    ensures r.state.nextId == st.nextId && r.state.shuttingDown == st.shuttingDown
    ensures r.out == HandlePacket(l.secret, Reply(l), st.conns[i], packet, now).out
    // a session that survives the packet keeps its place; the others are untouched
    ensures HandlePacket(l.secret, Reply(l), st.conns[i], packet, now).alive ==>
              && |r.state.conns| == |st.conns|
              && r.state.conns[i] == HandlePacket(l.secret, Reply(l), st.conns[i], packet, now).node
              && forall j :: 0 <= j < |st.conns| && j != i ==> r.state.conns[j] == st.conns[j]
    // a session the packet shuts down leaves; the others keep their order
    ensures !HandlePacket(l.secret, Reply(l), st.conns[i], packet, now).alive ==>
              && |r.state.conns| + 1 == |st.conns|
              && (forall j :: 0 <= j < i ==> r.state.conns[j] == st.conns[j])
              && (forall j :: i <= j < |r.state.conns| ==> r.state.conns[j] == st.conns[j + 1])
  {
    var h := HandlePacket(l.secret, Reply(l), st.conns[i], packet, now);
    if h.alive then Stepped(st.(conns := st.conns[i := h.node]), h.out)
    else Stepped(st.(conns := RemoveAt(st.conns, i)), h.out)
  }

  /** on_incoming_node_read_done. */
  function OnDatagram(l: Listener, st: State, now: nat, from: Addr, result: ReadResult): (r: Stepped)
    // a failed or empty read, or a read after the listener closed, changes nothing
    ensures st.shuttingDown || result.ReadError? || |result.data| == 0 ==> r == Stepped(st, [])
    // a known address reuses its session: no session is created
    ensures !st.shuttingDown && result.ReadBytes? && |result.data| > 0 && FindMatching(st.conns, from).Some? ==>
              r.state.nextId == st.nextId && |r.state.conns| <= |st.conns|
    // an unknown address gets exactly one new session, kept only if the handshake succeeds
    ensures !st.shuttingDown && result.ReadBytes? && |result.data| > 0 && FindMatching(st.conns, from).None? ==>
              && r.state.nextId == st.nextId + 1
              && (Authenticates(l.secret, result.data) ==>
                    && |r.state.conns| == |st.conns| + 1
                    && r.state.conns[..|st.conns|] == st.conns
                    && r.state.conns[|st.conns|].id == st.nextId
                    && r.state.conns[|st.conns|].addr == from
                    && r.state.conns[|st.conns|].verified
                    && r.state.conns[|st.conns|].timer == Armed(now + IdleMaxMs)
                    && r.out == [SendTo(from, Reply(l))])
              && (!Authenticates(l.secret, result.data) ==> r.state.conns == st.conns && r.out == [])
  {
    if st.shuttingDown then Stepped(st, [])
    else match result
      case ReadError => Stepped(st, [])
      case ReadBytes(packet) =>
        if |packet| == 0 then Stepped(st, [])
        else match FindMatching(st.conns, from)
          case Some(i) => Deliver(l, st, i, packet, now)
          case None =>
            var created := State(st.conns + [NewNode(st.nextId, from)], st.nextId + 1, st.shuttingDown);
            Deliver(l, created, |st.conns|, packet, now)
  }

  /** client_node_shutdown as the table sees it: the session with identity `id` leaves. */
  function CloseSession(st: State, id: nat): (r: State)
    ensures FindNode(st.conns, id).None? ==> r == st
    ensures FindNode(st.conns, id).Some? ==>
              multiset(r.conns) + multiset{st.conns[FindNode(st.conns, id).value]} == multiset(st.conns)
    ensures r.nextId == st.nextId && r.shuttingDown == st.shuttingDown
  {
    match FindNode(st.conns, id)
    case Some(i) =>
      assert st.conns == st.conns[..i] + [st.conns[i]] + st.conns[i + 1..];
      st.(conns := RemoveAt(st.conns, i))
    case None => st
  }

  /** client_timeout_cb: a session whose timer is due is shut down. */
  function OnTimer(st: State, now: nat, id: nat): (r: Stepped)
    ensures r.out == [] && r.state.nextId == st.nextId && r.state.shuttingDown == st.shuttingDown
    // a due session leaves the table; otherwise nothing changes
    ensures FindNode(st.conns, id).Some? && Expired(st.conns[FindNode(st.conns, id).value], now) ==>
              multiset(r.state.conns) + multiset{st.conns[FindNode(st.conns, id).value]} == multiset(st.conns)
    ensures !(FindNode(st.conns, id).Some? && Expired(st.conns[FindNode(st.conns, id).value], now)) ==> r.state == st
  {
    match FindNode(st.conns, id)
    case Some(i) =>
      if Expired(st.conns[i], now) then Stepped(CloseSession(st, id), [])
      else Stepped(st, [])
    case None => Stepped(st, [])
  }

  /** tun_iface_poll_cb for a session whose poll is running. */
  function OnPollReady(st: State, id: nat, status: int, readable: bool, writable: bool): (r: Stepped)
    ensures r.state.nextId == st.nextId && r.state.shuttingDown == st.shuttingDown
    // the table keeps its sessions: only the polled session's buffer can change
    ensures |r.state.conns| == |st.conns|
    ensures forall j :: 0 <= j < |st.conns| && st.conns[j].id != id ==> r.state.conns[j] == st.conns[j]
    ensures forall j :: 0 <= j < |st.conns| ==> r.state.conns[j].(incoming := st.conns[j].incoming) == st.conns[j]
    // the poll only reads from and writes to the TUN device, for its own session, and a
    // write carries that session's whole buffer
    ensures forall e :: e in r.out ==> (e.TunReadStarted? || e.TunWrite?) && e.node == id
    ensures forall e :: e in r.out && e.TunWrite? ==>
              FindNode(st.conns, id).Some? && e.data == st.conns[FindNode(st.conns, id).value].incoming
    // a session that is gone, or whose poll is not running, gets no callback
    ensures FindNode(st.conns, id).None? || !st.conns[FindNode(st.conns, id).value].pollRunning ==> r == Stepped(st, [])
    // otherwise the callback is the session's own poll handler, applied in its place
    ensures FindNode(st.conns, id).Some? && st.conns[FindNode(st.conns, id).value].pollRunning ==>
              && r.out == OnPoll(st.conns[FindNode(st.conns, id).value], status, readable, writable).1
              && r.state.conns[FindNode(st.conns, id).value]
                 == OnPoll(st.conns[FindNode(st.conns, id).value], status, readable, writable).0
  {
    match FindNode(st.conns, id)
    case Some(i) =>
      if st.conns[i].pollRunning then
        var p := OnPoll(st.conns[i], status, readable, writable);
        Stepped(st.(conns := st.conns[i := p.0]), p.1)
      else Stepped(st, [])
    case None => Stepped(st, [])
  }

  /** on_client_node_tun_iface_read_done: a node already shut down is unverified and sends nothing. */
  function OnTunReadDone(st: State, id: nat, result: ReadResult): (r: Stepped)
    ensures r.state == st
    // a datagram goes out exactly for a live, verified session whose read returned bytes
    ensures r.out != [] <==>
              && FindNode(st.conns, id).Some? && st.conns[FindNode(st.conns, id).value].verified
              && result.ReadBytes? && |result.data| > 0
    ensures r.out != [] ==> r.out == [SendTo(st.conns[FindNode(st.conns, id).value].addr, result.data)]
  {
    match FindNode(st.conns, id)
    case Some(i) => Stepped(st, OnTunRead(st.conns[i], result))
    case None => Stepped(st, [])
  }

  /** listener_ctx_shutdown: the first call shuts every session down and closes the listener. */
  function ListenerShutdown(st: State): (r: Stepped)
    ensures r.state.conns == [] || st.shuttingDown
    ensures r.state.shuttingDown && r.out == [] && r.state.nextId == st.nextId
    ensures st.shuttingDown ==> r.state == st
  {
    if st.shuttingDown then Stepped(st, [])
    else Stepped(State([], st.nextId, true), [])
  }

  /** One event of the server's loop. */
  function Step(l: Listener, st: State, ev: Event): (r: Stepped)
    // at most one session identity is used up and at most one session added per event
    ensures st.nextId <= r.state.nextId <= st.nextId + 1
    ensures |r.state.conns| <= |st.conns| + 1
    // only a signal shuts the listener down, and nothing reopens it
    ensures ev.Signal? ==> r.state.shuttingDown
    ensures !ev.Signal? ==> r.state.shuttingDown == st.shuttingDown
  {
    match ev
    case Datagram(now, from, result) => OnDatagram(l, st, now, from, result)
    case TimerFired(now, id) => OnTimer(st, now, id)
    case PollReady(id, status, readable, writable) => OnPollReady(st, id, status, readable, writable)
    case TunReadDone(id, result) => OnTunReadDone(st, id, result)
    case Signal => ListenerShutdown(st)
  }

  /** The server's loop over a sequence of events, collecting what it sends and writes. */
  function Run(l: Listener, st: State, events: seq<Event>): (r: Stepped)
    ensures st.nextId <= r.state.nextId <= st.nextId + |events|
    ensures |r.state.conns| <= |st.conns| + |events|
    // once a signal has arrived the listener stays shut down
    ensures (st.shuttingDown || Signal in events) ==> r.state.shuttingDown
    ensures !st.shuttingDown && Signal !in events ==> !r.state.shuttingDown
    decreases |events|
  {
    if |events| == 0 then Stepped(st, [])
    else
      var before := Run(l, st, events[..|events| - 1]);
      var s := Step(l, before.state, events[|events| - 1]);
      Stepped(s.state, before.out + s.out)
  }
}
