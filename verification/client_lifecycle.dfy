/** The Android client's worker (ToyVpnRunnable): one connection attempt, `run(server)`, as
    the stage notifications it makes and the packets it loops back to the VPN interface; and
    the thread, `run()`, that launches, retries and terminates those attempts. */
module ClientLifecycle {
  import opened Bytes
  import opened Wrappers

  /** OnConnectListener.Stage. */
  datatype Stage = TaskLaunch | Connecting | Establish | Disconnected | TaskTerminate

  /** The exceptions that decide how an attempt and the thread end. `Unchecked` is any other
      runtime exception (an index out of bounds, a null dereference). */
  datatype Exc = IOError | Interrupted | IllegalArgument | IllegalState | Unchecked

  /** What configureVirtualInterface can throw: it declares no checked exception, so only
      the unchecked ones the Builder raises escape it. */
  type ConfigureExc = e: Exc | e == IllegalArgument || e == IllegalState || e == Unchecked witness IllegalArgument

  /** Size of the packet buffer (MAX_PACKET_SIZE, Short.MAX_VALUE). */
  const MaxPacketSize: nat := 32767

  /** Consecutive attempts the thread allows before giving up. */
  const MaxAttempts: nat := 10

  /** The bytes one read from the interface delivers; a read never fills more than the buffer. */
  type Packet = p: seq<byte> | |p| <= MaxPacketSize

  /** How the forwarding loop, which never leaves on its own, is finally broken. */
  datatype PumpEnd =
    | EndOfStream                // read returns -1: the write of -1 bytes is out of bounds
    | ReadFailed                 // read throws IOException
    | WriteFailed(packet: Packet) // this packet is read, its write throws IOException

  /** The course of one attempt, in the order `run(server)` meets its failure points. */
  datatype Course =
    | OpenFails                           // DatagramChannel.open throws IOException
    | ProtectFails                        // VpnService.protect returns false
    | ConfigureThrows(e: ConfigureExc)    // configureVirtualInterface throws
    | NoInterface                         // Builder.establish returns null
    | Established(packets: seq<Packet>, end: PumpEnd)

  /** `run(server)` either returns its boolean or lets an exception escape. */
  datatype Outcome = Returned(connected: bool) | Threw(e: Exc)

  /** One attempt: the stages it notifies, the packets written to the interface and to the
      tunnel, and how it ends. */
  datatype AttemptRun = AttemptRun(stages: seq<Stage>, ifaceWrites: seq<seq<byte>>, tunnelWrites: seq<seq<byte>>, outcome: Outcome)

  /** A stage is delivered only to a listener that is set. */
  function Notify(listener: bool, s: Stage): seq<Stage>
  {
    if listener then [s] else []
  }

  /** Leaving the body of `run(server)` with `e`: an IOException is caught and the method
      returns true; everything else propagates. */
  function Leave(e: Exc): Outcome
  {
    if e == IOError then Returned(true) else Threw(e)
  }

  /** FileInputStream.read(byte[]) of `data`: its bytes replace the front of the buffer and
      the rest of the buffer keeps what the previous reads left there. */
  function Fill(buffer: seq<byte>, data: Packet): (r: seq<byte>)
    requires |buffer| == MaxPacketSize
    ensures |r| == MaxPacketSize
    ensures r[..|data|] == data
  {
    data + buffer[|data|..]
  }

  datatype Pumped = Pumped(buffer: seq<byte>, ifaceWrites: seq<seq<byte>>)

  /** The forwarding loop over reads that all succeed: after each read of `length` bytes it
      writes `packet.array()` from 0 for `length` bytes back to the interface. */
  function Pump(buffer: seq<byte>, packets: seq<Packet>): (r: Pumped)
    requires |buffer| == MaxPacketSize
    ensures |r.buffer| == MaxPacketSize
    ensures r.ifaceWrites == packets
    decreases |packets|
  {
    if |packets| == 0 then Pumped(buffer, [])
    else
      var before := Pump(buffer, packets[..|packets| - 1]);
      var length := |packets[|packets| - 1]|;
      var filled := Fill(before.buffer, packets[|packets| - 1]);
      Pumped(filled, before.ifaceWrites + [filled[0..length]])
  }

  /** The exception that breaks the forwarding loop. */
  function PumpFailure(end: PumpEnd): Exc
  {
    match end
    case EndOfStream => Unchecked
    case ReadFailed => IOError
    case WriteFailed(_) => IOError
  }

  /** `run(server)`: `connecting` first, `establish` once the interface is configured, and
      `disconnected` from the `finally` block however the attempt ends. */
  function RunAttempt(listener: bool, course: Course): (r: AttemptRun)
    // every attempt notifies connecting ... disconnected, with establish in between exactly
    // when the channel was opened and protected and configureVirtualInterface returned, even
    // if it returned null
    ensures listener && (course.NoInterface? || course.Established?) ==> r.stages == [Connecting, Establish, Disconnected]
    ensures listener && !(course.NoInterface? || course.Established?) ==> r.stages == [Connecting, Disconnected]
    ensures !listener ==> r.stages == []
    // a failed protect throws IllegalStateException
    ensures course.ProtectFails? ==> r.outcome == Threw(IllegalState)
    // an exception from configureVirtualInterface propagates unchanged
    ensures course.ConfigureThrows? ==> r.outcome == Threw(course.e)
    // a socket that fails to open, or an IOException while forwarding, is caught: the
    // attempt returns true
    ensures course.OpenFails? || (course.Established? && course.end != EndOfStream) ==> r.outcome == Returned(true)
    // a null interface (NullPointerException) and an end of stream (the write of -1 bytes)
    // throw unchecked exceptions
    ensures course.NoInterface? || (course.Established? && course.end == EndOfStream) ==> r.outcome == Threw(Unchecked)
    // the method returns true whenever it returns; IOExceptions never escape
    ensures r.outcome.Returned? ==> r.outcome.connected
    ensures r.outcome.Threw? ==> r.outcome.e != IOError
    // the interface receives exactly the packets it produced, unchanged; the tunnel nothing
    ensures course.Established? ==> r.ifaceWrites == course.packets && r.tunnelWrites == []
    ensures !course.Established? ==> r.ifaceWrites == [] && r.tunnelWrites == []
  {
    var connecting := Notify(listener, Connecting);
    var disconnected := Notify(listener, Disconnected);
    match course
    case OpenFails => AttemptRun(connecting + disconnected, [], [], Leave(IOError))
    case ProtectFails => AttemptRun(connecting + disconnected, [], [], Leave(IllegalState))
    case ConfigureThrows(e) => AttemptRun(connecting + disconnected, [], [], Leave(e))
    case NoInterface =>
      AttemptRun(connecting + Notify(listener, Establish) + disconnected, [], [], Leave(Unchecked))
    case Established(packets, end) =>
      var pumped := Pump(seq(MaxPacketSize, _ => Nul), packets);
      AttemptRun(connecting + Notify(listener, Establish) + disconnected, pumped.ifaceWrites, [], Leave(PumpFailure(end)))
  }

  /** One turn of `run()`'s loop as the loop sees it: the attempt's stages, how `run(server)`
      ended, and whether the following sleep was interrupted. */
  datatype Round = Round(stages: seq<Stage>, outcome: Outcome, sleepInterrupted: bool)

  /** How the loop ended; `Pending` when the rounds ran out with the loop still going. */
  datatype LoopEnd = GaveUp | Caught(e: Exc) | Died(e: Exc) | Pending

  /** The loop's stages, the number of rounds it used, and how it ended. */
  datatype LoopRun = LoopRun(stages: seq<Stage>, used: nat, end: LoopEnd)

  /** The exceptions `run()` catches. */
  predicate IsCaught(e: Exc)
  {
    e == Interrupted || e == IllegalArgument || e == IllegalState
  }

  /** A round that leaves the loop running: `run(server)` returned and the sleep was not interrupted. */
  predicate Continues(rd: Round)
  {
    rd.outcome.Returned? && !rd.sleepInterrupted
  }

  /** How a round that stops the loop ends it: the exception `run(server)` threw, caught or
      fatal, or the InterruptedException of its sleep. */
  function Stop(rd: Round): LoopEnd
  {
    match rd.outcome
    case Threw(e) => if IsCaught(e) then Caught(e) else Died(e)
    case Returned(_) => Caught(Interrupted)
  }

  /** The stages of the rounds, in order. */
  function StagesOf(rounds: seq<Round>): seq<Stage>
  {
    if |rounds| == 0 then [] else rounds[0].stages + StagesOf(rounds[1..])
  }

  /** `for (attempt = ...; attempt < 10; ++attempt)` around `run(server)` and the sleep, from
      the counter value `attempt`; a true return resets the counter before it is incremented. */
  function RetryLoop(rounds: seq<Round>, attempt: nat): (r: LoopRun)
    requires attempt < MaxAttempts
    ensures 0 < r.used <= |rounds| || (r.used == 0 && |rounds| == 0)
    ensures r.stages == StagesOf(rounds[..r.used])
    // every round before the last one used let the loop go on
    ensures forall j :: 0 <= j < r.used - 1 ==> Continues(rounds[j])
    ensures r.end == Pending ==> r.used == |rounds| && forall j :: 0 <= j < |rounds| ==> Continues(rounds[j])
    // the loop leaves early only on the round that ends it: by exhausting the counter, or by
    // an exception out of the attempt or the sleep
    ensures r.end != Pending ==> 0 < r.used && (r.end == GaveUp <==> Continues(rounds[r.used - 1]))
    ensures r.end.Caught? ==> IsCaught(r.end.e)
    ensures r.end.Died? ==> !IsCaught(r.end.e) && rounds[r.used - 1].outcome == Threw(r.end.e)
    // and it ends as that last round stops it
    ensures r.end != Pending && r.end != GaveUp ==> r.end == Stop(rounds[r.used - 1])
    decreases |rounds|
  {
    if |rounds| == 0 then LoopRun([], 0, Pending)
    else
      var rd := rounds[0];
      assert rounds[..1] == [rd];
      assert StagesOf([rd]) == rd.stages;
      match rd.outcome
      case Threw(e) => LoopRun(rd.stages, 1, if IsCaught(e) then Caught(e) else Died(e))
      case Returned(connected) =>
        if rd.sleepInterrupted then LoopRun(rd.stages, 1, Caught(Interrupted))
        else
          var next := (if connected then 0 else attempt) + 1;
          if next >= MaxAttempts then LoopRun(rd.stages, 1, GaveUp)
          else
            var rest := RetryLoop(rounds[1..], next);
            assert rounds[..1 + rest.used][1..] == rounds[1..][..rest.used];
            LoopRun(rd.stages + rest.stages, 1 + rest.used, rest.end)
  }

  /** A round that `run(server)` ended by returning false: the only case that counts against the limit. */
  predicate Failed(rd: Round)
  {
    rd.outcome == Returned(false) && !rd.sleepInterrupted
  }

  /** The number of failed rounds at the end of `rs`. */
  function TrailingFailures(rs: seq<Round>): (r: nat)
    ensures r <= |rs|
    ensures forall j :: |rs| - r <= j < |rs| ==> Failed(rs[j])
    ensures r < |rs| ==> !Failed(rs[|rs| - 1 - r])
  {
    if |rs| == 0 || !Failed(rs[|rs| - 1]) then 0 else 1 + TrailingFailures(rs[..|rs| - 1])
  }

  /** The loop counter after `rs`, all of which let the loop go on, starting from `attempt`:
      one for the last success plus the failures since, or the start value plus the failures
      when nothing has succeeded yet. */
  function CounterAfter(rs: seq<Round>, attempt: nat): nat
  {
    var f := TrailingFailures(rs);
    if f == |rs| then attempt + f else 1 + f
  }

  lemma {:induction false} TrailingFailuresCons(rd: Round, xs: seq<Round>)
    ensures TrailingFailures([rd] + xs) ==
      if TrailingFailures(xs) < |xs| then TrailingFailures(xs)
      else if Failed(rd) then |xs| + 1 else |xs|
    decreases |xs|
  {
    if |xs| > 0 {
      var ys := [rd] + xs;
      assert ys[..|ys| - 1] == [rd] + xs[..|xs| - 1];
      assert ys[|ys| - 1] == xs[|xs| - 1];
      TrailingFailuresCons(rd, xs[..|xs| - 1]);
    }
  }

  /** The counter after one more round at the front is the counter after the others, started
      from the value that first round leaves. */
  lemma CounterShift(rd: Round, xs: seq<Round>, attempt: nat)
    requires Continues(rd)
    ensures CounterAfter([rd] + xs, attempt) == CounterAfter(xs, (if rd.outcome.connected then 0 else attempt) + 1)
  {
    TrailingFailuresCons(rd, xs);
  }

  /** One round that lets the loop go on without reaching the limit hands the rest of the
      rounds to the loop with the counter that round leaves. */
  lemma LoopStep(rounds: seq<Round>, attempt: nat)
    requires attempt < MaxAttempts
    requires |rounds| > 0 && Continues(rounds[0])
    requires (if rounds[0].outcome.connected then 0 else attempt) + 1 < MaxAttempts
    ensures RetryLoop(rounds, attempt).end == RetryLoop(rounds[1..], (if rounds[0].outcome.connected then 0 else attempt) + 1).end
    ensures RetryLoop(rounds, attempt).used == 1 + RetryLoop(rounds[1..], (if rounds[0].outcome.connected then 0 else attempt) + 1).used
  {
  }

  /** A round that brings the counter to the limit ends the loop there. */
  lemma LoopLast(rounds: seq<Round>, attempt: nat)
    requires attempt < MaxAttempts
    requires |rounds| > 0 && Continues(rounds[0])
    requires (if rounds[0].outcome.connected then 0 else attempt) + 1 >= MaxAttempts
    ensures RetryLoop(rounds, attempt).end == GaveUp && RetryLoop(rounds, attempt).used == 1
  {
  }

  /** A round that does not let the loop go on ends it without giving up. */
  lemma LoopStops(rounds: seq<Round>, attempt: nat)
    requires attempt < MaxAttempts
    requires |rounds| == 0 || !Continues(rounds[0])
    ensures RetryLoop(rounds, attempt).end != GaveUp
  {
  }

  /** The loop gives up exactly when the counter reaches the limit: the counter after the
      rounds it used is ten. */
  lemma {:induction false} GiveUpAtLimit(rounds: seq<Round>, attempt: nat)
    requires attempt < MaxAttempts
    ensures RetryLoop(rounds, attempt).end == GaveUp ==> CounterAfter(rounds[..RetryLoop(rounds, attempt).used], attempt) == MaxAttempts
    decreases |rounds|
  {
    if |rounds| == 0 || !Continues(rounds[0]) {
      LoopStops(rounds, attempt);
    } else {
      var rd := rounds[0];
      var next := (if rd.outcome.connected then 0 else attempt) + 1;
      if next >= MaxAttempts {
        LoopLast(rounds, attempt);
        assert rounds[..1] == [rd] + [];
        CounterShift(rd, [], attempt);
      } else {
        GiveUpAtLimit(rounds[1..], next);
        GiveUpLater(rounds, attempt, next);
      }
    }
  }

  lemma GiveUpLater(rounds: seq<Round>, attempt: nat, next: nat)
    requires attempt < MaxAttempts
    requires |rounds| > 0 && Continues(rounds[0])
    requires next == (if rounds[0].outcome.connected then 0 else attempt) + 1 < MaxAttempts
    requires RetryLoop(rounds[1..], next).end == GaveUp ==> CounterAfter(rounds[1..][..RetryLoop(rounds[1..], next).used], next) == MaxAttempts
    ensures RetryLoop(rounds, attempt).end == GaveUp ==> CounterAfter(rounds[..RetryLoop(rounds, attempt).used], attempt) == MaxAttempts
  {
    LoopStep(rounds, attempt);
    if RetryLoop(rounds, attempt).end == GaveUp {
      CounterOfPrefix(rounds, attempt, RetryLoop(rounds[1..], next).used);
    }
  }

  /** The counter over the first 1 + used rounds is the counter the first round leaves,
      carried over the next used rounds. */
  lemma CounterOfPrefix(rounds: seq<Round>, attempt: nat, used: nat)
    requires |rounds| > 0 && Continues(rounds[0]) && used < |rounds|
    ensures CounterAfter(rounds[..1 + used], attempt)
      == CounterAfter(rounds[1..][..used], (if rounds[0].outcome.connected then 0 else attempt) + 1)
  {
    assert rounds[..1 + used] == [rounds[0]] + rounds[1..][..used];
    CounterShift(rounds[0], rounds[1..][..used], attempt);
  }

  /** A loop still going has its counter below ten. */
  lemma {:induction false} PendingBelowLimit(rounds: seq<Round>, attempt: nat)
    requires attempt < MaxAttempts
    ensures RetryLoop(rounds, attempt).end == Pending ==> CounterAfter(rounds, attempt) < MaxAttempts
    decreases |rounds|
  {
    if |rounds| > 0 && Continues(rounds[0]) {
      var rd := rounds[0];
      var next := (if rd.outcome.connected then 0 else attempt) + 1;
      if next < MaxAttempts {
        LoopStep(rounds, attempt);
        PendingBelowLimit(rounds[1..], next);
        assert rounds == [rd] + rounds[1..];
        CounterShift(rd, rounds[1..], attempt);
      }
    }
  }

  /** Conversely, rounds that all let the loop go on and bring the counter to the limit make
      it give up. */
  lemma {:induction false} LimitGivesUp(rounds: seq<Round>, attempt: nat)
    requires attempt < MaxAttempts
    requires forall j :: 0 <= j < |rounds| ==> Continues(rounds[j])
    requires CounterAfter(rounds, attempt) >= MaxAttempts
    ensures RetryLoop(rounds, attempt).end == GaveUp
    decreases |rounds|
  {
    var rd := rounds[0];
    var next := (if rd.outcome.connected then 0 else attempt) + 1;
    if next < MaxAttempts {
      LoopStep(rounds, attempt);
      assert rounds == [rd] + rounds[1..];
      CounterShift(rd, rounds[1..], attempt);
      LimitGivesUp(rounds[1..], next);
    }
  }

  /** Giving up takes at least ten rounds from the start, nine of them after the last success. */
  lemma GivingUpTakesTenRounds(rounds: seq<Round>)
    ensures RetryLoop(rounds, 0).end == GaveUp ==> RetryLoop(rounds, 0).used >= MaxAttempts
    ensures RetryLoop(rounds, 0).end == GaveUp ==> TrailingFailures(rounds[..RetryLoop(rounds, 0).used]) >= MaxAttempts - 1
  {
    GiveUpAtLimit(rounds, 0);
  }

  /** Ten failures in a row from the start, or nine after a success, are enough. */
  lemma FailuresExhaustTheLimit(rounds: seq<Round>, attempt: nat)
    requires attempt < MaxAttempts
    requires forall j :: 0 <= j < |rounds| ==> Failed(rounds[j])
    requires attempt + |rounds| >= MaxAttempts
    ensures RetryLoop(rounds, attempt).end == GaveUp
  {
    assert forall j :: 0 <= j < |rounds| ==> Continues(rounds[j]);
    LimitGivesUp(rounds, attempt);
  }

  /** When every attempt that returns reports a connection, the counter never passes one and
      the loop never gives up. */
  lemma SuccessesNeverGiveUp(rounds: seq<Round>, attempt: nat)
    requires attempt < MaxAttempts
    requires forall j :: 0 <= j < |rounds| ==> rounds[j].outcome.Returned? ==> rounds[j].outcome.connected
    ensures RetryLoop(rounds, attempt).end != GaveUp
  {
    GiveUpAtLimit(rounds, attempt);
  }

  /** A sequence of complete attempts as the listener hears them: each one connecting, then
      optionally establish, then disconnected. */
  predicate Blocks(s: seq<Stage>)
    decreases |s|
  {
    |s| == 0
    || (|s| >= 2 && s[0] == Connecting && s[1] == Disconnected && Blocks(s[2..]))
    || (|s| >= 3 && s[0] == Connecting && s[1] == Establish && s[2] == Disconnected && Blocks(s[3..]))
  }

  predicate AttemptStages(s: seq<Stage>)
  {
    s == [Connecting, Disconnected] || s == [Connecting, Establish, Disconnected]
  }

  lemma {:induction false} StagesAreBlocks(rounds: seq<Round>)
    requires forall j :: 0 <= j < |rounds| ==> AttemptStages(rounds[j].stages)
    ensures Blocks(StagesOf(rounds))
    decreases |rounds|
  {
    if |rounds| > 0 {
      StagesAreBlocks(rounds[1..]);
      var s := StagesOf(rounds);
      assert AttemptStages(rounds[0].stages);
      if rounds[0].stages == [Connecting, Disconnected] {
        assert s[2..] == StagesOf(rounds[1..]);
      } else {
        assert s[3..] == StagesOf(rounds[1..]);
      }
    }
  }

  lemma {:induction false} SilentStages(rounds: seq<Round>)
    requires forall j :: 0 <= j < |rounds| ==> rounds[j].stages == []
    ensures StagesOf(rounds) == []
    decreases |rounds|
  {
    if |rounds| > 0 {
      SilentStages(rounds[1..]);
    }
  }

  /** In a run of complete attempts, establish is always announced between a connecting and a
      disconnected, connecting is always followed by establish or disconnected, disconnected
      always follows connecting or establish, and taskLaunch and taskTerminate never appear. */
  lemma {:induction false} BlocksAlternate(s: seq<Stage>)
    requires Blocks(s)
    ensures |s| > 0 ==> s[0] == Connecting && s[|s| - 1] == Disconnected
    ensures forall i :: 0 <= i < |s| && s[i] == Establish ==> 0 < i && s[i - 1] == Connecting && i + 1 < |s| && s[i + 1] == Disconnected
    ensures forall i :: 0 <= i < |s| && s[i] == Connecting ==> i + 1 < |s| && (s[i + 1] == Establish || s[i + 1] == Disconnected)
    ensures forall i :: 0 <= i < |s| && s[i] == Disconnected ==> 0 < i && (s[i - 1] == Connecting || s[i - 1] == Establish)
    ensures forall i :: 0 <= i < |s| ==> s[i] != TaskLaunch && s[i] != TaskTerminate
    decreases |s|
  {
    if |s| > 0 {
      var k := if s[1] == Disconnected then 2 else 3;
      BlocksAlternate(s[k..]);
      forall i | k <= i < |s|
        ensures s[i] == s[k..][i - k]
      {
      }
    }
  }

  /** One attempt of the thread: how `run(server)` goes and whether the sleep after it is
      interrupted. */
  datatype Try = Try(course: Course, sleepInterrupted: bool)

  function RoundOf(listener: bool, t: Try): (rd: Round)
    ensures listener ==> AttemptStages(rd.stages)
    ensures rd.outcome.Returned? ==> rd.outcome.connected
    ensures rd.outcome.Threw? ==> rd.outcome.e != IOError
  {
    var a := RunAttempt(listener, t.course);
    Round(a.stages, a.outcome, t.sleepInterrupted)
  }

  function RoundsOf(listener: bool, tries: seq<Try>): (rs: seq<Round>)
    ensures |rs| == |tries|
    ensures forall j :: 0 <= j < |tries| ==> rs[j] == RoundOf(listener, tries[j])
  {
    seq(|tries|, j requires 0 <= j < |tries| => RoundOf(listener, tries[j]))
  }

  /** What the listener hears from the thread and how the thread ends. */
  datatype ThreadRun = ThreadRun(stages: seq<Stage>, end: LoopEnd)

  /** InetSocketAddress(hostname, port) rejects a missing host name and a port outside 0..65535. */
  predicate ValidAddress(hostname: Option<string>, port: int)
  {
    hostname.Some? && 0 <= port <= 65535
  }

  /** The attempts of a thread whose address is valid, as the retry loop runs them. */
  function Attempts(listener: bool, tries: seq<Try>): (loop: LoopRun)
    ensures loop.end != GaveUp
    ensures loop.end.Caught? ==> IsCaught(loop.end.e)
    ensures loop.end.Died? ==> loop.end.e == Unchecked
    ensures listener ==> Blocks(loop.stages)
    ensures !listener ==> loop.stages == []
  {
    var rounds := RoundsOf(listener, tries);
    var loop := RetryLoop(rounds, 0);
    SuccessesNeverGiveUp(rounds, 0);
    if listener then
      StagesAreBlocks(rounds[..loop.used]);
      loop
    else
      SilentStages(rounds[..loop.used]);
      loop
  }

  /** The attempts run until the first one that stops the loop, which ends the loop as it
      stops it; the loop is still going only if every attempt let it go on. */
  lemma AttemptsStop(listener: bool, tries: seq<Try>)
    ensures Attempts(listener, tries).used <= |tries|
    ensures forall j :: 0 <= j < Attempts(listener, tries).used - 1 ==> Continues(RoundOf(listener, tries[j]))
    ensures Attempts(listener, tries).end != Pending ==>
      0 < Attempts(listener, tries).used && Attempts(listener, tries).end == Stop(RoundOf(listener, tries[Attempts(listener, tries).used - 1]))
    ensures Attempts(listener, tries).end == Pending ==> forall j :: 0 <= j < |tries| ==> Continues(RoundOf(listener, tries[j]))
  {
  }

  /** `run()`: announce the launch, build the server address, retry attempts, and announce
      termination from the `finally` block however the thread ends. `tries` is what the
      environment does on each attempt; `Pending` means the thread outlives them. */
  function RunThread(listener: bool, hostname: Option<string>, port: int, tries: seq<Try>): (r: ThreadRun)
    ensures !listener ==> r.stages == []
    // launch first, then complete attempts, then terminate once the thread is over
    ensures listener && r.end == Pending ==> |r.stages| >= 1 && r.stages[0] == TaskLaunch && Blocks(r.stages[1..])
    ensures listener && r.end != Pending ==>
      (|r.stages| >= 2 && r.stages[0] == TaskLaunch
       && r.stages[|r.stages| - 1] == TaskTerminate && Blocks(r.stages[1..|r.stages| - 1]))
    // an address the socket API rejects ends the thread before any attempt
    ensures !ValidAddress(hostname, port) ==> r.end == Caught(IllegalArgument)
    ensures !ValidAddress(hostname, port) && listener ==> r.stages == [TaskLaunch, TaskTerminate]
    // as written, the attempt limit is never reached
    ensures r.end != GaveUp
    // the thread ends by a caught exception, or dies of an unchecked one
    ensures r.end.Caught? ==> IsCaught(r.end.e)
    ensures r.end.Died? ==> r.end.e == Unchecked
  {
    if !ValidAddress(hostname, port) then
      assert Blocks([]);
      ThreadRun(Framed(listener, [], true), Caught(IllegalArgument))
    else
      var loop := Attempts(listener, tries);
      ThreadRun(Framed(listener, loop.stages, loop.end != Pending), loop.end)
  }

  /** The stages of the thread around those of its attempts: the launch, and the termination
      once the thread is `done`; nothing without a listener. */
  function Framed(listener: bool, middle: seq<Stage>, done: bool): (s: seq<Stage>)
    ensures !listener ==> s == middle
    ensures listener ==> |s| >= 1 && s[0] == TaskLaunch
    ensures listener && !done ==> s[1..] == middle
    ensures listener && done ==> |s| >= 2 && s[|s| - 1] == TaskTerminate && s[1..|s| - 1] == middle
  {
    Notify(listener, TaskLaunch) + middle + (if done then Notify(listener, TaskTerminate) else [])
  }

  /** An exception out of the first attempt ends the thread right after it: the attempt's
      stages are framed by launch and terminate, and a caught exception ends the thread
      quietly while any other kills it. */
  lemma FirstAttemptThrows(hostname: string, port: int, t: Try, later: seq<Try>)
    requires 0 <= port <= 65535
    requires RunAttempt(true, t.course).outcome.Threw?
    ensures RunThread(true, Some(hostname), port, [t] + later).stages
      == [TaskLaunch] + RunAttempt(true, t.course).stages + [TaskTerminate]
    ensures RunThread(true, Some(hostname), port, [t] + later).end
      == (if IsCaught(RunAttempt(true, t.course).outcome.e) then Caught(RunAttempt(true, t.course).outcome.e)
          else Died(RunAttempt(true, t.course).outcome.e))
  {
    AttemptThrows(hostname, port, [t] + later, 0);
    RoundsOfCons(true, t, later);
    assert RoundsOf(true, [t] + later)[..1] == [RoundOf(true, t)];
    assert StagesOf([RoundOf(true, t)]) == RoundOf(true, t).stages;
  }

  /** A refused protect is an IllegalStateException, which the thread catches. */
  lemma ProtectFailureEndsThread(hostname: string, port: int, later: seq<Try>)
    requires 0 <= port <= 65535
    ensures RunThread(true, Some(hostname), port, [Try(ProtectFails, false)] + later)
      == ThreadRun([TaskLaunch, Connecting, Disconnected, TaskTerminate], Caught(IllegalState))
  {
    FirstAttemptThrows(hostname, port, Try(ProtectFails, false), later);
  }

  /** A socket that cannot be opened is an IOException: the attempt returns and the thread goes
      on to the next attempt, ending as it would have without the failed one. */
  lemma OpenFailureIsRetried(hostname: string, port: int, later: seq<Try>)
    requires 0 <= port <= 65535
    ensures RunThread(true, Some(hostname), port, [Try(OpenFails, false)] + later).end
      == RunThread(true, Some(hostname), port, later).end
  {
    RoundsOfCons(true, Try(OpenFails, false), later);
    RetryFirstAttempt(RoundsOf(true, later));
    SameEndFromCounterOne(RoundsOf(true, later));
  }

  lemma RoundsOfCons(listener: bool, t: Try, later: seq<Try>)
    ensures RoundsOf(listener, [t] + later) == [RoundOf(listener, t)] + RoundsOf(listener, later)
  {
  }

  lemma RetryFirstAttempt(rest: seq<Round>)
    ensures RetryLoop([Round([Connecting, Disconnected], Returned(true), false)] + rest, 0).end == RetryLoop(rest, 1).end
  {
    var rounds := [Round([Connecting, Disconnected], Returned(true), false)] + rest;
    assert rounds[1..] == rest;
    LoopStep(rounds, 0);
  }

  /** With every attempt reporting success, starting the counter at zero or at one makes no
      difference to how the loop ends. */
  lemma {:induction false} SameEndFromCounterOne(rounds: seq<Round>)
    requires forall j :: 0 <= j < |rounds| ==> rounds[j].outcome.Returned? ==> rounds[j].outcome.connected
    ensures RetryLoop(rounds, 1).end == RetryLoop(rounds, 0).end
  {
    if |rounds| > 0 && Continues(rounds[0]) {
      LoopStep(rounds, 0);
      LoopStep(rounds, 1);
    }
  }

  /** End of stream on the interface makes the write of -1 bytes fail with an unchecked
      exception: the thread dies, still announcing disconnected and terminate. */
  lemma EndOfStreamKillsThread(hostname: string, port: int, packets: seq<Packet>, later: seq<Try>)
    requires 0 <= port <= 65535
    ensures RunThread(true, Some(hostname), port, [Try(Established(packets, EndOfStream), false)] + later)
      == ThreadRun([TaskLaunch, Connecting, Establish, Disconnected, TaskTerminate], Died(Unchecked))
  {
    var t := Try(Established(packets, EndOfStream), false);
    var attempt := RunAttempt(true, t.course);
    assert attempt.stages == [Connecting, Establish, Disconnected] && attempt.outcome == Threw(Unchecked);
    FirstAttemptThrows(hostname, port, t, later);
    var thread := RunThread(true, Some(hostname), port, [t] + later);
    assert thread.stages == [TaskLaunch] + attempt.stages + [TaskTerminate];
  }

  lemma EndOfStreamIsUnchecked(listener: bool, packets: seq<Packet>)
    ensures RunAttempt(listener, Established(packets, EndOfStream)).outcome == Threw(Unchecked)
  {
  }

  /** An exception out of any attempt that the earlier attempts let the loop reach ends the
      thread right after it: caught if it is one of the three `run()` lists, fatal otherwise,
      with the thread's stages those of the attempts so far between launch and terminate. */
  lemma AttemptThrows(hostname: string, port: int, tries: seq<Try>, k: nat)
    requires 0 <= port <= 65535
    requires k < |tries|
    requires forall j :: 0 <= j < k ==> Continues(RoundOf(true, tries[j]))
    requires RunAttempt(true, tries[k].course).outcome.Threw?
    ensures RunThread(true, Some(hostname), port, tries).end == Stop(RoundOf(true, tries[k]))
    ensures RunThread(true, Some(hostname), port, tries).stages
      == [TaskLaunch] + StagesOf(RoundsOf(true, tries)[..k + 1]) + [TaskTerminate]
  {
    AttemptsStop(true, tries);
    var loop := Attempts(true, tries);
    assert !Continues(RoundOf(true, tries[k]));
    assert loop.used - 1 == k;
    ThreadOfAttempts(hostname, port, tries);
  }

  /** End of stream in any attempt the thread reaches kills it, announcing establish,
      disconnected and terminate last. */
  lemma EndOfStreamAlwaysKillsThread(hostname: string, port: int, tries: seq<Try>, k: nat)
    requires 0 <= port <= 65535
    requires k < |tries| && tries[k].course.Established? && tries[k].course.end == EndOfStream
    requires forall j :: 0 <= j < k ==> Continues(RoundOf(true, tries[j]))
    ensures RunThread(true, Some(hostname), port, tries).end == Died(Unchecked)
    ensures var s := RunThread(true, Some(hostname), port, tries).stages;
            |s| >= 4 && s[|s| - 4..] == [Connecting, Establish, Disconnected, TaskTerminate]
  {
    EndOfStreamRound(tries[k]);
    UncheckedAfterEstablishKillsThread(hostname, port, tries, k);
  }

  /** A `null` from `establish()` in any attempt the thread reaches kills it with a
      NullPointerException, after establish, disconnected and terminate are announced. */
  lemma NullInterfaceKillsThread(hostname: string, port: int, tries: seq<Try>, k: nat)
    requires 0 <= port <= 65535
    requires k < |tries| && tries[k].course == NoInterface
    requires forall j :: 0 <= j < k ==> Continues(RoundOf(true, tries[j]))
    ensures RunThread(true, Some(hostname), port, tries).end == Died(Unchecked)
    ensures var s := RunThread(true, Some(hostname), port, tries).stages;
            |s| >= 4 && s[|s| - 4..] == [Connecting, Establish, Disconnected, TaskTerminate]
  {
    UncheckedAfterEstablishKillsThread(hostname, port, tries, k);
  }

  /** An attempt that announces establish and then throws an unchecked exception ends the
      thread: it dies, and the attempt's stages are the last before terminate. */
  lemma UncheckedAfterEstablishKillsThread(hostname: string, port: int, tries: seq<Try>, k: nat)
    requires 0 <= port <= 65535
    requires k < |tries|
    requires forall j :: 0 <= j < k ==> Continues(RoundOf(true, tries[j]))
    requires RoundOf(true, tries[k]).stages == [Connecting, Establish, Disconnected]
    requires RoundOf(true, tries[k]).outcome == Threw(Unchecked)
    ensures RunThread(true, Some(hostname), port, tries).end == Died(Unchecked)
    ensures var s := RunThread(true, Some(hostname), port, tries).stages;
            |s| >= 4 && s[|s| - 4..] == [Connecting, Establish, Disconnected, TaskTerminate]
  {
    ThreadEndsWithRound(hostname, port, tries, k);
    EndsWithAttempt([TaskLaunch] + StagesOf(RoundsOf(true, tries)[..k]), RoundOf(true, tries[k]).stages);
  }

  /** An attempt that hits end of stream announces its three stages and throws unchecked. */
  lemma EndOfStreamRound(t: Try)
    requires t.course.Established? && t.course.end == EndOfStream
    ensures RoundOf(true, t).stages == [Connecting, Establish, Disconnected]
    ensures RoundOf(true, t).outcome == Threw(Unchecked)
  {
    EndOfStreamIsUnchecked(true, t.course.packets);
  }

  /** A thread stopped by a throwing attempt ends with that attempt's stages, then terminate. */
  lemma ThreadEndsWithRound(hostname: string, port: int, tries: seq<Try>, k: nat)
    requires 0 <= port <= 65535
    requires k < |tries|
    requires forall j :: 0 <= j < k ==> Continues(RoundOf(true, tries[j]))
    requires RunAttempt(true, tries[k].course).outcome.Threw?
    ensures RunThread(true, Some(hostname), port, tries).end == Stop(RoundOf(true, tries[k]))
    ensures RunThread(true, Some(hostname), port, tries).stages
      == [TaskLaunch] + StagesOf(RoundsOf(true, tries)[..k]) + RoundOf(true, tries[k]).stages + [TaskTerminate]
  {
    AttemptThrows(hostname, port, tries, k);
    var rounds := RoundsOf(true, tries);
    StagesOfPrefix(rounds, k);
    Reframe(RunThread(true, Some(hostname), port, tries).stages, StagesOf(rounds[..k + 1]),
            StagesOf(rounds[..k]), rounds[k].stages);
  }

  /** Regrouping the attempt stages between launch and terminate. */
  lemma Reframe(s: seq<Stage>, a: seq<Stage>, b: seq<Stage>, c: seq<Stage>)
    requires s == [TaskLaunch] + a + [TaskTerminate] && a == b + c
    ensures s == [TaskLaunch] + b + c + [TaskTerminate]
  {
  }

  lemma EndsWithAttempt(front: seq<Stage>, attempt: seq<Stage>)
    requires attempt == [Connecting, Establish, Disconnected]
    ensures var s := front + attempt + [TaskTerminate];
            |s| >= 4 && s[|s| - 4..] == [Connecting, Establish, Disconnected, TaskTerminate]
  {
  }

  /** The stages of the first k + 1 rounds are those of the first k, then round k's. */
  lemma StagesOfPrefix(rounds: seq<Round>, k: nat)
    requires k < |rounds|
    ensures StagesOf(rounds[..k + 1]) == StagesOf(rounds[..k]) + rounds[k].stages
  {
    StagesOfAppend(rounds[..k], [rounds[k]]);
    assert rounds[..k] + [rounds[k]] == rounds[..k + 1];
  }

  lemma {:induction false} StagesOfAppend(a: seq<Round>, b: seq<Round>)
    ensures StagesOf(a + b) == StagesOf(a) + StagesOf(b)
    decreases |a|
  {
    if |a| == 0 {
      assert a + b == b;
    } else {
      StagesOfAppend(a[1..], b);
      assert (a + b)[1..] == a[1..] + b;
    }
  }

  /** An exception out of the first attempt ends the loop there. */
  lemma FirstRoundThrows(rd: Round, rest: seq<Round>)
    requires rd.outcome.Threw?
    ensures RetryLoop([rd] + rest, 0)
      == LoopRun(rd.stages, 1, if IsCaught(rd.outcome.e) then Caught(rd.outcome.e) else Died(rd.outcome.e))
  {
  }

  /** With a listener and a valid address, the thread's stages frame those of its attempts. */
  lemma ThreadOfAttempts(hostname: string, port: int, tries: seq<Try>)
    requires 0 <= port <= 65535
    ensures RunThread(true, Some(hostname), port, tries).end == RetryLoop(RoundsOf(true, tries), 0).end
    ensures RetryLoop(RoundsOf(true, tries), 0).end != Pending ==>
      RunThread(true, Some(hostname), port, tries).stages == [TaskLaunch] + RetryLoop(RoundsOf(true, tries), 0).stages + [TaskTerminate]
  {
  }
}
