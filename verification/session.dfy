/** One client session of the ToyVpn server (`struct client_node`): the handshake, the
    verified-session packet rules, the flush of buffered data on a poll event and the session's shutdown. */
module Session {
  import opened Bytes

  /** A client's socket address, compared byte for byte as find_matching_connection does. */
  type Addr = seq<byte>

  /** Idle time, in milliseconds, after which a session expires (IDLE_MAX_MS). */
  const IdleMaxMs: nat := 20 * 1000

  /** The session's expiry timer: stopped, or due to fire at `deadline` (loop time, ms). */
  datatype Timer = Stopped | Armed(deadline: nat)

  /** `struct client_node`. `id` stands for the node's identity (its address in memory);
      `incoming` is the `incoming_data` buffer of client data waiting for the TUN device. */
  datatype Node = Node(
    id: nat,
    addr: Addr,
    timeout: nat,
    verified: bool,
    timer: Timer,
    pollRunning: bool,
    incoming: seq<byte>,
    shuttingDown: bool)

  /** What the session asks the outside world to do. */
  datatype Effect =
    | SendTo(addr: Addr, data: seq<byte>)   // a UDP datagram to the client
    | PollStarted(node: nat)                // the session's poll (on descriptor 0) starts
    | TunReadStarted(node: nat)             // an asynchronous read from the TUN device
    | TunWrite(node: nat, data: seq<byte>)  // one write to the TUN device

  /** The result of an asynchronous read: `nread` bytes, or a negative `nread`. */
  datatype ReadResult = ReadBytes(data: seq<byte>) | ReadError

  /** A fresh session as create_client_node makes it: unverified, timer and poll idle. */
  function NewNode(id: nat, addr: Addr): (n: Node)
    ensures n.id == id && n.addr == addr && n.timeout == IdleMaxMs
    ensures !n.verified && !n.shuttingDown && n.timer == Stopped && !n.pollRunning && n.incoming == []
  {
    Node(id, addr, IdleMaxMs, false, Stopped, false, [], false)
  }

  /** A session whose expiry timer is due at loop time `now`. */
  predicate Expired(n: Node, now: nat)
  {
    n.timer.Armed? && n.timer.deadline <= now
  }

  /** A packet whose first byte is 0 is a control message. */
  predicate IsControl(packet: seq<byte>)
  {
    |packet| > 0 && packet[0] == Nul
  }

  /** The handshake test: a control packet whose bytes after the marker start with the secret
      (its C string). A packet too short to hold the whole secret does not authenticate. */
  predicate Authenticates(secret: seq<byte>, packet: seq<byte>)
    ensures Authenticates(secret, packet) <==> IsControl(packet) && CStr(secret) <= packet[1..]
  {
    var s := CStr(secret);
    IsControl(packet) && 1 + |s| <= |packet| && packet[1 .. 1 + |s|] == s
  }

  /** common_restart_timer: the timer is stopped and started again for the node's timeout. */
  function RestartTimer(node: Node, now: nat): (r: Node)
    ensures r.timer.Armed? && r.timer.deadline == now + node.timeout
    ensures r.(timer := node.timer) == node
  {
    node.(timer := Armed(now + node.timeout))
  }

  /** client_node_shutdown, on the node itself. */
  function Shutdown(node: Node): (r: Node)
    ensures node.shuttingDown ==> r == node
    ensures !node.shuttingDown ==>
              && r.shuttingDown && !r.verified && r.timer == Stopped && !r.pollRunning && r.incoming == []
              && r.id == node.id && r.addr == node.addr && r.timeout == node.timeout
  {
    if node.shuttingDown then node
    else node.(shuttingDown := true, verified := false, timer := Stopped, pollRunning := false, incoming := [])
  }

  /** Shutting a session down twice is the same as shutting it down once. */
  lemma ShutdownIdempotent(node: Node)
    ensures Shutdown(Shutdown(node)) == Shutdown(node)
  {
  }

  /** A handled packet: the node afterwards, what it sends, and whether it is still alive
      (a dead node has been shut down and leaves the session table). */
  datatype Handled = Handled(node: Node, out: seq<Effect>, alive: bool)

  /** client_node_handle_incoming_packet, for a packet arriving at loop time `now`; `reply` is
      the listener's parameter block up to `param_len`. */
  function HandlePacket(secret: seq<byte>, reply: seq<byte>, node: Node, packet: seq<byte>, now: nat): (r: Handled)
    // an empty packet is ignored: nothing changes, nothing is sent, the timer is not restarted
    ensures |packet| == 0 ==> r == Handled(node, [], true)
    // the handshake: accepted exactly when the packet authenticates; any other packet ends the session
    ensures |packet| > 0 && !node.verified ==>
              && (r.alive <==> Authenticates(secret, packet))
              && (r.alive ==> r.node.verified && r.out == [SendTo(node.addr, reply)])
              && (r.alive ==> r.node.incoming == node.incoming && r.node.pollRunning == node.pollRunning)
              && (!r.alive ==> r.node == Shutdown(node) && r.out == [])
    // a verified session never rejects a packet
    ensures |packet| > 0 && node.verified ==> r.alive && r.node.verified
    // every accepted packet restarts the expiry timer with the node's timeout
    ensures |packet| > 0 && r.alive ==> r.node.timer == Armed(now + node.timeout)
    // control packets are echoed back unchanged
    ensures node.verified && IsControl(packet) ==>
              r.out == [SendTo(node.addr, packet)] && r.node.incoming == node.incoming
              && r.node.pollRunning == node.pollRunning
    // data packets are queued for the TUN device; polling starts only if it was not running
    ensures node.verified && |packet| > 0 && !IsControl(packet) ==>
              && r.node.incoming == node.incoming + packet
              && r.node.pollRunning
              && r.out == (if node.pollRunning then [] else [PollStarted(node.id)])
    // the session's identity and address never change
    ensures r.node.id == node.id && r.node.addr == node.addr && r.node.timeout == node.timeout
    ensures r.alive ==> r.node.shuttingDown == node.shuttingDown
  {
    if |packet| == 0 then Handled(node, [], true)
    else if !node.verified then
      if Authenticates(secret, packet) then
        Handled(RestartTimer(node.(verified := true), now), [SendTo(node.addr, reply)], true)
      else
        Handled(Shutdown(node), [], false)
    else if packet[0] == Nul then
      Handled(RestartTimer(node, now), [SendTo(node.addr, packet)], true)
    else
      var queued := node.(incoming := node.incoming + packet);
      if node.pollRunning then Handled(RestartTimer(queued, now), [], true)
      else Handled(RestartTimer(queued.(pollRunning := true), now), [PollStarted(node.id)], true)
  }

  /** tun_iface_poll_cb: with a non-negative status and a verified session, a readable event
      starts one TUN read and a writable event writes the whole buffer as one TUN write. */
  function OnPoll(node: Node, status: int, readable: bool, writable: bool): (r: (Node, seq<Effect>))
    ensures status < 0 || !node.verified ==> r == (node, [])
    ensures status >= 0 && node.verified ==>
              && r.1 == (if readable then [TunReadStarted(node.id)] else [])
                        + (if writable && |node.incoming| > 0 then [TunWrite(node.id, node.incoming)] else [])
              && r.0 == (if writable then node.(incoming := []) else node)
  {
    if status < 0 || !node.verified then (node, [])
    else
      var started := if readable then [TunReadStarted(node.id)] else [];
      if writable && |node.incoming| > 0 then (node.(incoming := []), started + [TunWrite(node.id, node.incoming)])
      else (node, started)
  }

  /** on_client_node_tun_iface_read_done: bytes read from the TUN device go to a verified
      client as one datagram; an empty or failed read sends nothing. */
  function OnTunRead(node: Node, result: ReadResult): (out: seq<Effect>)
    ensures out != [] <==> node.verified && result.ReadBytes? && |result.data| > 0
    ensures out != [] ==> out == [SendTo(node.addr, result.data)]
  {
    match result
    case ReadBytes(data) => if |data| > 0 && node.verified then [SendTo(node.addr, data)] else []
    case ReadError => []
  }

  /** Nothing is read from or written to the TUN device for an unverified session. */
  lemma UnverifiedMovesNothing(node: Node, status: int, readable: bool, writable: bool, result: ReadResult)
    requires !node.verified
    ensures OnPoll(node, status, readable, writable) == (node, [])
    ensures OnTunRead(node, result) == []
  {
  }

  /** A packet that reached the server at loop time `at`. */
  datatype Arrival = Arrival(at: nat, packet: seq<byte>)

  /** Packets handed to one session in arrival order; once the session dies the rest are not
      its concern. */
  function Feed(secret: seq<byte>, reply: seq<byte>, node: Node, arrivals: seq<Arrival>): Handled
  {
    if |arrivals| == 0 then Handled(node, [], true)
    else
      var before := Feed(secret, reply, node, arrivals[..|arrivals| - 1]);
      if !before.alive then before
      else
        var last := arrivals[|arrivals| - 1];
        var h := HandlePacket(secret, reply, before.node, last.packet, last.at);
        Handled(h.node, before.out + h.out, h.alive)
  }

  /** The data packets among the arrivals (non-empty, not control), laid end to end. */
  function DataOf(arrivals: seq<Arrival>): seq<byte>
  {
    if |arrivals| == 0 then []
    else
      var p := arrivals[|arrivals| - 1].packet;
      DataOf(arrivals[..|arrivals| - 1]) + (if |p| > 0 && !IsControl(p) then p else [])
  }

  /** The control packets among the arrivals, in order. */
  function ControlOf(arrivals: seq<Arrival>): seq<seq<byte>>
  {
    if |arrivals| == 0 then []
    else
      var p := arrivals[|arrivals| - 1].packet;
      ControlOf(arrivals[..|arrivals| - 1]) + (if IsControl(p) then [p] else [])
  }

  /** The payloads of the datagrams among the effects, in order. */
  function Sent(out: seq<Effect>): seq<seq<byte>>
  {
    if |out| == 0 then []
    else Sent(out[..|out| - 1]) + (if out[|out| - 1].SendTo? then [out[|out| - 1].data] else [])
  }

  /** How many times the effects start the session's poll. */
  function PollStarts(out: seq<Effect>): nat
  {
    if |out| == 0 then 0
    else PollStarts(out[..|out| - 1]) + (if out[|out| - 1].PollStarted? then 1 else 0)
  }

  lemma SentAppend(a: seq<Effect>, b: seq<Effect>)
    ensures Sent(a + b) == Sent(a) + Sent(b)
    ensures PollStarts(a + b) == PollStarts(a) + PollStarts(b)
    decreases |b|
  {
    if |b| == 0 {
      assert a + b == a;
    } else {
      assert (a + b)[..|a + b| - 1] == a + b[..|b| - 1];
      SentAppend(a, b[..|b| - 1]);
    }
  }

  /** In a verified session, whatever the mix of packets: the session stays verified, the data
      packets end up in the buffer in arrival order, exactly the control packets are echoed, in
      order, and polling is started at most once — only if it was not running and data came. */
  lemma VerifiedSessionFeed(secret: seq<byte>, reply: seq<byte>, node: Node, arrivals: seq<Arrival>)
    requires node.verified
    ensures var r := Feed(secret, reply, node, arrivals);
            && r.alive && r.node.verified
            && r.node.incoming == node.incoming + DataOf(arrivals)
            && Sent(r.out) == ControlOf(arrivals)
            && PollStarts(r.out) == (if !node.pollRunning && |DataOf(arrivals)| > 0 then 1 else 0)
            && (r.node.pollRunning <==> node.pollRunning || |DataOf(arrivals)| > 0)
  {
    FeedBuffersData(secret, reply, node, arrivals);
    FeedEchoesControl(secret, reply, node, arrivals);
    FeedStartsPollOnce(secret, reply, node, arrivals);
  }

  /** One more arrival at a live session is handled by HandlePacket. */
  lemma FeedLast(secret: seq<byte>, reply: seq<byte>, node: Node, arrivals: seq<Arrival>)
    requires |arrivals| > 0
    requires Feed(secret, reply, node, arrivals[..|arrivals| - 1]).alive
    ensures var before := Feed(secret, reply, node, arrivals[..|arrivals| - 1]);
            var last := arrivals[|arrivals| - 1];
            var h := HandlePacket(secret, reply, before.node, last.packet, last.at);
            Feed(secret, reply, node, arrivals) == Handled(h.node, before.out + h.out, h.alive)
  {
  }

  lemma {:induction false} FeedBuffersData(secret: seq<byte>, reply: seq<byte>, node: Node, arrivals: seq<Arrival>)
    requires node.verified
    ensures var r := Feed(secret, reply, node, arrivals);
            && r.alive && r.node.verified
            && r.node.incoming == node.incoming + DataOf(arrivals)
    decreases |arrivals|
  {
    if |arrivals| > 0 {
      var init := arrivals[..|arrivals| - 1];
      FeedBuffersData(secret, reply, node, init);
      FeedLast(secret, reply, node, arrivals);
    }
  }

  lemma {:induction false} FeedEchoesControl(secret: seq<byte>, reply: seq<byte>, node: Node, arrivals: seq<Arrival>)
    requires node.verified
    ensures Sent(Feed(secret, reply, node, arrivals).out) == ControlOf(arrivals)
    decreases |arrivals|
  {
    if |arrivals| > 0 {
      var init := arrivals[..|arrivals| - 1];
      FeedEchoesControl(secret, reply, node, init);
      FeedBuffersData(secret, reply, node, init);
      FeedLast(secret, reply, node, arrivals);
      var before := Feed(secret, reply, node, init);
      var last := arrivals[|arrivals| - 1];
      var h := HandlePacket(secret, reply, before.node, last.packet, last.at);
      SentAppend(before.out, h.out);
      assert Sent(h.out) == (if IsControl(last.packet) then [last.packet] else []) by {
        if IsControl(last.packet) {
          assert h.out == [] + [SendTo(before.node.addr, last.packet)];
        } else if |h.out| > 0 {
          assert h.out == [] + [PollStarted(before.node.id)];
        }
      }
    }
  }

  lemma {:induction false} FeedStartsPollOnce(secret: seq<byte>, reply: seq<byte>, node: Node, arrivals: seq<Arrival>)
    requires node.verified
    ensures var r := Feed(secret, reply, node, arrivals);
            && PollStarts(r.out) == (if !node.pollRunning && |DataOf(arrivals)| > 0 then 1 else 0)
            && (r.node.pollRunning <==> node.pollRunning || |DataOf(arrivals)| > 0)
    decreases |arrivals|
  {
    if |arrivals| > 0 {
      var init := arrivals[..|arrivals| - 1];
      FeedStartsPollOnce(secret, reply, node, init);
      FeedBuffersData(secret, reply, node, init);
      FeedLast(secret, reply, node, arrivals);
      var before := Feed(secret, reply, node, init);
      var last := arrivals[|arrivals| - 1];
      var h := HandlePacket(secret, reply, before.node, last.packet, last.at);
      SentAppend(before.out, h.out);
      assert PollStarts(h.out) == (if |h.out| > 0 && !IsControl(last.packet) then 1 else 0) by {
        if IsControl(last.packet) {
          assert h.out == [] + [SendTo(before.node.addr, last.packet)];
        } else if |h.out| > 0 {
          assert h.out == [] + [PollStarted(before.node.id)];
        }
      }
    }
  }

  /** The poll's write takes everything buffered since the session's buffer was last emptied:
      data packets that arrive at a verified session with an empty buffer reach the TUN device
      as a single write of their concatenation, after which the buffer is empty again. */
  lemma BufferedDataFlushedAsOneWrite(secret: seq<byte>, reply: seq<byte>, node: Node, arrivals: seq<Arrival>, readable: bool)
    requires node.verified && node.incoming == []
    requires |DataOf(arrivals)| > 0
    ensures var fed := Feed(secret, reply, node, arrivals).node;
            var polled := OnPoll(fed, 0, readable, true);
            && polled.0.incoming == []
            && polled.1 == (if readable then [TunReadStarted(node.id)] else []) + [TunWrite(node.id, DataOf(arrivals))]
  {
    VerifiedSessionFeed(secret, reply, node, arrivals);
    FeedKeepsIdentity(secret, reply, node, arrivals);
    var fed := Feed(secret, reply, node, arrivals).node;
    assert fed.incoming == DataOf(arrivals);
  }

  lemma {:induction false} FeedKeepsIdentity(secret: seq<byte>, reply: seq<byte>, node: Node, arrivals: seq<Arrival>)
    ensures Feed(secret, reply, node, arrivals).node.id == node.id
    ensures Feed(secret, reply, node, arrivals).node.addr == node.addr
    decreases |arrivals|
  {
    if |arrivals| > 0 {
      FeedKeepsIdentity(secret, reply, node, arrivals[..|arrivals| - 1]);
    }
  }
}
