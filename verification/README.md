# ToyVpn core in Dafny

A model of the core of ToyVpn, a toy VPN with two sides:

- **The Linux server** (`server/linux/ToyVpnServer2.c`). It builds the parameter block that it sends to clients from its command-line options. It keeps one session per client UDP address. A session is authenticated by a handshake: a control packet (first byte 0) that carries the shared secret. Once a session is verified:
  - control packets are echoed back to the client;
  - data packets are buffered and written to the TUN device when the session's poll reports writable;
  - whatever a read from the TUN device returns is sent to the client.
  The session's poll is set up before the TUN descriptor is copied into the session, so it watches descriptor 0. The readiness it reports is therefore that of descriptor 0, while the reads and writes it triggers go to the TUN device. Every session shares the one TUN descriptor. A session expires after 20 s without a packet from the client. A signal shuts the whole listener down.
- **The Android client's worker** (`ToyVpnRunnable.java`). The thread announces its launch and retries connection attempts, up to ten in a row without success. Each attempt announces connecting and disconnected. It announces establish in between only when building the interface returned, which a failure to open or protect the socket prevents. While established, it echoes the virtual interface's packets back to it. The thread announces termination however it ends.

Modules:

| file | module | what it holds |
|---|---|---|
| `wrappers.dfy` | `Wrappers` | `Option`, `Result` |
| `bytes.dfy` | `Bytes` | bytes, C strings (`strlen` view), space padding |
| `parameters.dfy` | `Parameters` | `build_parameters` against the reference layout `Joined`/`Layout` |
| `session.dfy` | `Session` | one `client_node`: the handshake, the packet rules, the poll, TUN reads and shutdown |
| `server.dfy` | `Server` | the session table and one step per libuv callback |
| `server_properties.dfy` | `ServerProperties` | the table invariant and properties across events |
| `client_lifecycle.dfy` | `ClientLifecycle` | `run(server)` as a trace of stages and writes; `run()`'s retry loop and thread |

## Model

| member | source | states |
|---|---|---|
| Bytes.CStr | server/linux/ToyVpnServer2.c:135 | the C string of a buffer is its prefix up to the first NUL: it contains no NUL, and the buffer has a NUL right after it unless the buffer ends first |
| Parameters.BuildParameters | server/linux/ToyVpnServer2.c:128-164 | succeeds exactly when the joined arguments fit the block. On success, returns their length as the offset and leaves the block as the padded, marked layout. On failure, names the first argument whose end passes the block's capacity; that argument starts within the block |
| Parameters.AppendParameter | server/linux/ToyVpnServer2.c:133-156 | one loop turn: an argument fits exactly when the bytes of the arguments so far, plus its delimiter and text, stay within the block; it then extends the written prefix to those arguments |
| Parameters.Finish | server/linux/ToyVpnServer2.c:157-163 | the finished block keeps the buffer's size. Byte 0 is the marker 0. Bytes 1 to offset-1 are the joined arguments' bytes, and every byte from the offset to the end is a space |
| Parameters.LayoutOfBytes | server/linux/ToyVpnServer2.c:157-163 | any block of the right size that has the marker, the joined bytes and the space padding is the reference layout, so the finished block is it |
| Parameters.Overflow | server/linux/ToyVpnServer2.c:146-149 | an argument that does not fit means the whole argument list does not fit, so failure is decided by the total length alone |
| Parameters.EmittedCases | server/linux/ToyVpnServer2.c:136-144 | a two-byte argument starting with '-' contributes a space and its letter; any other argument contributes a comma and its whole C string |
| Parameters.JoinedPrefix | server/linux/ToyVpnServer2.c:131-156 | the bytes written for the first k arguments are a prefix of the bytes for all of them; later arguments never overwrite earlier ones |
| Parameters.JoinedLength | server/linux/ToyVpnServer2.c:155-163 | the returned offset equals one delimiter byte plus the copied text, summed over the arguments |
| Parameters.ArgumentPlacement | server/linux/ToyVpnServer2.c:153-155 | each argument's delimiter and text sit in the joined bytes exactly at the offset where the arguments before it end |
| Parameters.OffsetZero | server/linux/ToyVpnServer2.c:153-161 | only the first argument starts at offset 0, so byte 0's marker overwrites exactly the first argument's delimiter |
| Parameters.LayoutKeepsJoined | server/linux/ToyVpnServer2.c:153-161 | past byte 0, the block holds the joined arguments unchanged |
| Parameters.LayoutMarkerAndPadding | server/linux/ToyVpnServer2.c:158-161 | the block keeps its size, byte 0 is the control marker 0, and every byte from the offset to the end (other than byte 0) is a space |
| Parameters.ReplyIsMarkedArguments | server/linux/ToyVpnServer2.c:161-163 | the first offset bytes of the block, which a verified client receives, are the marker 0 followed by the joined arguments minus their first delimiter; they are empty for an empty option list, which `main` never passes |
| Session.NewNode | server/linux/ToyVpnServer2.c:367-391 | a new session has the given identity and address and the 20 s idle timeout. It is unverified and not shutting down, its timer is stopped, its poll is idle and its buffer is empty |
| Session.Authenticates | server/linux/ToyVpnServer2.c:572-574 | a packet authenticates exactly when it is a control packet and the secret's C string is a prefix of the bytes after the marker |
| Session.RestartTimer | server/linux/ToyVpnServer2.c:441-447 | the timer is armed for the session's timeout after now, and nothing else about the session changes |
| Session.Shutdown | server/linux/ToyVpnServer2.c:405-439 | a second shutdown does nothing. The first marks the session shutting down and unverified, stops its timer and poll, and drops its buffer. Identity, address and timeout are kept |
| Session.ShutdownIdempotent | server/linux/ToyVpnServer2.c:409-411 | shutting a session down twice equals shutting it down once |
| Session.HandlePacket | server/linux/ToyVpnServer2.c:564-602 | An empty packet changes nothing. An unverified session survives exactly when the packet authenticates: it becomes verified and replies with the parameters; otherwise it is shut down, silently. A verified session never rejects a packet: a control packet is echoed unchanged, with the buffer and the poll left as they were, and a data packet is appended to the buffer, starting the poll only if it was idle. Every accepted packet re-arms the timer for now + timeout. Identity and address never change |
| Session.OnPoll | server/linux/ToyVpnServer2.c:343-365 | a poll error or an unverified session does nothing. Otherwise a readable event starts one TUN read, and a writable event writes the whole buffer in one write (only if non-empty) and empties it |
| Session.OnTunRead | server/linux/ToyVpnServer2.c:485-507 | a datagram is sent exactly when the session is verified and the read returned bytes; it carries those bytes to the session's address |
| Session.UnverifiedMovesNothing | server/linux/ToyVpnServer2.c:349-353 | an unverified session neither reads from nor writes to the TUN device, nor sends anything it read |
| Session.VerifiedSessionFeed | server/linux/ToyVpnServer2.c:582-594 | For any packet sequence, a verified session stays verified. Its buffer gains the data packets' bytes in arrival order. It echoes exactly the control packets, in order. It starts polling at most once: only when polling was idle and data arrived |
| Session.FeedBuffersData | server/linux/ToyVpnServer2.c:586-588 | in a verified session, the buffer afterwards is the old buffer followed by the data packets, in arrival order |
| Session.FeedEchoesControl | server/linux/ToyVpnServer2.c:583-585 | the datagrams a verified session sends are exactly its control packets, in order |
| Session.FeedStartsPollOnce | server/linux/ToyVpnServer2.c:589-592 | the poll is started once at most, and it is running afterwards exactly when it was running before or data arrived |
| Session.BufferedDataFlushedAsOneWrite | server/linux/ToyVpnServer2.c:355-362 | data buffered from empty reaches the TUN device as one write of the concatenated data packets, and the buffer is empty again afterwards |
| Session.FeedKeepsIdentity | server/linux/ToyVpnServer2.c:564-602 | handling packets never changes a session's identity or address |
| Server.Position | server/linux/ToyVpnServer2.c:328-338 | the search the table traversal performs: the position found holds a matching session and no earlier one matches; nothing is found exactly when no session matches |
| Server.FindMatching | server/linux/ToyVpnServer2.c:328-338 | finds the first session with the sender's address, and finds none exactly when no session has that address |
| Server.FindNode | server/linux/ToyVpnServer2.c:485-487 | finds the session with a given identity, and finds none exactly when it has left the table |
| Server.RemoveAt | server/linux/ToyVpnServer2.c:416 | removing a session keeps every other session, in order |
| Server.OnDatagram | server/linux/ToyVpnServer2.c:604-650 | A failed or empty read changes nothing, as does any read after shutdown. A known address reuses its session: no session is created and none is added. An unknown address consumes one new identity. The new session is appended, verified with its timer armed, and answered with the reply exactly when the handshake succeeds; otherwise the table is unchanged and nothing is sent |
| Server.Reply | server/linux/ToyVpnServer2.c:577 | the handshake reply is the first param_len bytes of the parameter block |
| Server.Deliver | server/linux/ToyVpnServer2.c:644 | the session's packet output is passed through unchanged. A session that survives the packet keeps its place, and every other session is untouched. A session the packet shuts down leaves the table, and the others keep their order. Identities and the shutdown flag do not change |
| Server.OnTimer | server/linux/ToyVpnServer2.c:449-454 | a timer event sends nothing. It removes exactly the session whose deadline has passed, and otherwise changes nothing |
| Server.OnPollReady | server/linux/ToyVpnServer2.c:343-365 | a poll event keeps every session and only changes the polled session's buffer. Its effects are TUN reads and writes for that session only, and a write carries the session's whole buffer. A session that is gone or whose poll is not running gets nothing. Otherwise the event is exactly the session's own poll handler (`Session.OnPoll`) applied in its place: the same effects and the same updated session |
| Server.OnTunReadDone | server/linux/ToyVpnServer2.c:485-507 | a completed TUN read never changes the table. A datagram goes out exactly when the session is still there and verified and the read returned bytes; it carries those bytes to the session's address |
| Server.CloseSession | server/linux/ToyVpnServer2.c:405-439 | closing removes exactly that one session from the table (as a multiset). It changes nothing when the session is already gone |
| Server.ListenerShutdown | server/linux/ToyVpnServer2.c:254-287 | afterwards the listener is shutting down with no session left, and a repeated call changes nothing |
| Server.Step | server/linux/ToyVpnServer2.c:604-650 | each event uses up at most one identity and adds at most one session. Only a signal shuts the listener down, and nothing reopens it |
| Server.Run | server/linux/ToyVpnServer2.c:748 | over a run of events, identities only grow, by at most one per event, and the table grows by at most one session per event. The listener ends shut down exactly when it started so or a signal arrived |
| ServerProperties.RunKeepsInv | server/linux/ToyVpnServer2.c:604-650 | every run of events preserves the table invariant: one session per address, distinct identities, every session verified and live with its timer armed and its poll running whenever data waits, and no session after shutdown |
| ServerProperties.StepKeepsInv | server/linux/ToyVpnServer2.c:604-650 | each callback preserves the table invariant |
| ServerProperties.DatagramKeepsInv | server/linux/ToyVpnServer2.c:634-644 | a datagram preserves the invariant: a new session either settles or leaves again at once |
| ServerProperties.RemoveAtKeepsInv | server/linux/ToyVpnServer2.c:416 | removing a session preserves the invariant |
| ServerProperties.ReplaceKeepsInv | server/linux/ToyVpnServer2.c:564-602 | updating a session in place that stays settled, with the same identity and address, preserves the invariant |
| ServerProperties.InitialInv | server/linux/ToyVpnServer2.c:604-650 | the empty table satisfies the invariant |
| ServerProperties.DatagramReusesSession | server/linux/ToyVpnServer2.c:625-644 | a datagram from an address that has a session is handled by that session in its place, with no new identity and exactly the session's output |
| ServerProperties.CloseSessionIdempotent | server/linux/ToyVpnServer2.c:405-412 | closing the same session twice equals closing it once |
| ServerProperties.ListenerShutdownIdempotent | server/linux/ToyVpnServer2.c:254-261 | a second signal changes nothing and sends nothing |
| ServerProperties.QuietAfterShutdown | server/linux/ToyVpnServer2.c:254-287 | after shutdown, no event changes the state or produces traffic |
| ServerProperties.ExpiryAfterIdle | server/linux/ToyVpnServer2.c:441-454 | a session that has just accepted a packet at time now is shut down by its timer exactly when the timer fires at or after now + IDLE_MAX_MS |
| ClientLifecycle.Fill | toyvpn/src/main/java/com/ssrlive/toyvpn/ToyVpnRunnable.java:223-231 | a read puts its bytes at the front of the 32767-byte buffer and keeps the buffer's size |
| ClientLifecycle.Pump | toyvpn/src/main/java/com/ssrlive/toyvpn/ToyVpnRunnable.java:227-253 | the writes to the interface are exactly the packets read, unchanged, whatever the stale bytes behind them in the buffer |
| ClientLifecycle.RunAttempt | toyvpn/src/main/java/com/ssrlive/toyvpn/ToyVpnRunnable.java:178-277 | Every attempt announces connecting then disconnected, with establish in between exactly when interface configuration returned, even with `null`; a missing listener hears nothing. A refused protect throws IllegalStateException. An exception from configuring the interface propagates unchanged. A failed socket open and an IOException while forwarding are caught, and the attempt returns true. A `null` interface and an end of stream throw unchecked exceptions. The method returns only true. No IOException escapes. The interface gets exactly its own packets back and the tunnel gets nothing |
| ClientLifecycle.RetryLoop | toyvpn/src/main/java/com/ssrlive/toyvpn/ToyVpnRunnable.java:156-167 | The loop's stages are those of the rounds it used. Every round before the last used one let it continue. It gives up exactly when its last round continued, i.e. the counter hit the limit. Otherwise it ends as its last round stops it: on that round's exception, caught if it is Interrupted, IllegalArgument or IllegalState and fatal otherwise, or on the InterruptedException of its sleep |
| ClientLifecycle.GiveUpAtLimit | toyvpn/src/main/java/com/ssrlive/toyvpn/ToyVpnRunnable.java:156-164 | giving up means the counter computed independently from the rounds (one after the last success plus the failures since, or the start value plus all failures) has reached 10 |
| ClientLifecycle.LimitGivesUp | toyvpn/src/main/java/com/ssrlive/toyvpn/ToyVpnRunnable.java:156-164 | conversely, continuing rounds that bring that counter to 10 make the loop give up |
| ClientLifecycle.PendingBelowLimit | toyvpn/src/main/java/com/ssrlive/toyvpn/ToyVpnRunnable.java:156-164 | while the loop is still going, that counter is below 10 |
| ClientLifecycle.GivingUpTakesTenRounds | toyvpn/src/main/java/com/ssrlive/toyvpn/ToyVpnRunnable.java:156-164 | from the start, giving up takes at least ten rounds, the last nine or more of them failures |
| ClientLifecycle.FailuresExhaustTheLimit | toyvpn/src/main/java/com/ssrlive/toyvpn/ToyVpnRunnable.java:156-164 | consecutive failures that bring the counter to 10 make the loop give up |
| ClientLifecycle.SuccessesNeverGiveUp | toyvpn/src/main/java/com/ssrlive/toyvpn/ToyVpnRunnable.java:156-160 | when every attempt that returns reports success, the loop never gives up |
| ClientLifecycle.TrailingFailures | toyvpn/src/main/java/com/ssrlive/toyvpn/ToyVpnRunnable.java:156-160 | counts exactly the run of failed rounds at the end |
| ClientLifecycle.CounterShift | toyvpn/src/main/java/com/ssrlive/toyvpn/ToyVpnRunnable.java:156-160 | the counter after one more leading round equals the counter of the rest, started where that round leaves it |
| ClientLifecycle.LoopStep | toyvpn/src/main/java/com/ssrlive/toyvpn/ToyVpnRunnable.java:156-164 | a continuing round below the limit hands the remaining rounds to the loop with the counter reset or incremented |
| ClientLifecycle.LoopLast | toyvpn/src/main/java/com/ssrlive/toyvpn/ToyVpnRunnable.java:156 | a round that brings the counter to 10 ends the loop by giving up |
| ClientLifecycle.LoopStops | toyvpn/src/main/java/com/ssrlive/toyvpn/ToyVpnRunnable.java:163-167 | a round that throws, or whose sleep is interrupted, ends the loop without giving up |
| ClientLifecycle.BlocksAlternate | toyvpn/src/main/java/com/ssrlive/toyvpn/ToyVpnRunnable.java:184-262 | In the stages of complete attempts, connecting comes first and disconnected last. Establish always sits between a connecting and a disconnected. Connecting is always followed by establish or disconnected. Disconnected always directly follows connecting or establish. taskLaunch and taskTerminate never appear |
| ClientLifecycle.StagesAreBlocks | toyvpn/src/main/java/com/ssrlive/toyvpn/ToyVpnRunnable.java:156-164 | the loop's stages are a sequence of complete attempts |
| ClientLifecycle.SilentStages | toyvpn/src/main/java/com/ssrlive/toyvpn/ToyVpnRunnable.java:184-188 | without a listener, attempts announce nothing |
| ClientLifecycle.RoundOf | toyvpn/src/main/java/com/ssrlive/toyvpn/ToyVpnRunnable.java:158-163 | a round with a listener announces one complete attempt; it returns only true and never lets an IOException out |
| ClientLifecycle.RoundsOf | toyvpn/src/main/java/com/ssrlive/toyvpn/ToyVpnRunnable.java:156-164 | one round per attempt, in order |
| ClientLifecycle.Attempts | toyvpn/src/main/java/com/ssrlive/toyvpn/ToyVpnRunnable.java:156-167 | the attempts never give up. A caught exception is Interrupted, IllegalArgument or IllegalState, and a fatal one is unchecked. With a listener, the stages form complete attempts; without one, they are empty |
| ClientLifecycle.RunThread | toyvpn/src/main/java/com/ssrlive/toyvpn/ToyVpnRunnable.java:136-176 | Without a listener, nothing is announced. Otherwise the thread announces launch first, then complete attempts, then terminate once it is over. An invalid address ends it with IllegalArgument before any attempt. It never gives up. It ends on a caught exception or dies of an unchecked one |
| ClientLifecycle.Framed | toyvpn/src/main/java/com/ssrlive/toyvpn/ToyVpnRunnable.java:140-175 | the attempt stages sit between launch and, once the thread is done, terminate |
| ClientLifecycle.FirstAttemptThrows | toyvpn/src/main/java/com/ssrlive/toyvpn/ToyVpnRunnable.java:156-175 | an exception out of the first attempt ends the thread right after it: it is caught if it is one of the three listed, fatal otherwise, and termination is still announced |
| ClientLifecycle.ProtectFailureEndsThread | toyvpn/src/main/java/com/ssrlive/toyvpn/ToyVpnRunnable.java:194-196 | a refused protect yields launch, connecting, disconnected, terminate, and the thread ends on a caught IllegalStateException |
| ClientLifecycle.OpenFailureIsRetried | toyvpn/src/main/java/com/ssrlive/toyvpn/ToyVpnRunnable.java:191-276 | a socket that fails to open is an IOException that the attempt swallows; the thread ends just as it would have without that attempt |
| ClientLifecycle.SameEndFromCounterOne | toyvpn/src/main/java/com/ssrlive/toyvpn/ToyVpnRunnable.java:156-160 | with only successful returns, starting the counter at 0 or 1 ends the loop the same way |
| ClientLifecycle.EndOfStreamKillsThread | toyvpn/src/main/java/com/ssrlive/toyvpn/ToyVpnRunnable.java:231-262 | A read of -1 makes the write fail with an unchecked exception, which kills the thread. Disconnected and terminate are still announced |
| ClientLifecycle.FirstRoundThrows | toyvpn/src/main/java/com/ssrlive/toyvpn/ToyVpnRunnable.java:158-166 | a first round that throws ends the loop after one round, on that exception |
| ClientLifecycle.AttemptThrows | toyvpn/src/main/java/com/ssrlive/toyvpn/ToyVpnRunnable.java:156-175 | an exception out of any attempt that the earlier attempts let the loop reach ends the thread right after that attempt, caught or fatal as run() decides; the thread's stages are launch, the attempts so far, and terminate |
| ClientLifecycle.EndOfStreamAlwaysKillsThread | toyvpn/src/main/java/com/ssrlive/toyvpn/ToyVpnRunnable.java:231-262 | an end of stream in any attempt the thread reaches kills it with an unchecked exception; the last stages announced are connecting, establish, disconnected, terminate |
| ClientLifecycle.NullInterfaceKillsThread | toyvpn/src/main/java/com/ssrlive/toyvpn/ToyVpnRunnable.java:208-217 | a `null` interface in any attempt the thread reaches kills it with an unchecked exception; the last stages announced are connecting, establish, disconnected, terminate |
| ClientLifecycle.UncheckedAfterEstablishKillsThread | toyvpn/src/main/java/com/ssrlive/toyvpn/ToyVpnRunnable.java:156-175 | an attempt that announces establish and then throws an unchecked exception kills the thread, with that attempt's stages last before terminate |
| ClientLifecycle.ThreadOfAttempts | toyvpn/src/main/java/com/ssrlive/toyvpn/ToyVpnRunnable.java:140-175 | with a valid address, the thread ends as its retry loop ends; once over, its stages are launch, the loop's stages, then terminate |

### Where the code and its design notes part

- `run(server)` returns `true` on every path that returns (line 276), and IOExceptions are caught inside it. So `run()`'s counter is reset after every attempt and never reaches 10: the thread never "gives up". `RunThread` proves `end != GaveUp`. The loop itself is modelled over any outcome, so its giving-up behaviour is still characterised (`GiveUpAtLimit`, `LimitGivesUp`).
- After a success the counter restarts at 1, not 0: nine failures after a success exhaust the limit, but ten are needed from the start (`GivingUpTakesTenRounds`, `FailuresExhaustTheLimit`).
- Only InterruptedException, IllegalArgumentException and IllegalStateException are caught by `run()`. An end of stream on the interface (`read` returns -1) makes `write(array, 0, -1)` throw an unchecked IndexOutOfBoundsException, which kills the thread. A `null` from `establish()` does the same through a NullPointerException (`NullInterfaceKillsThread`). The `finally` blocks still announce disconnected and terminate. An end of stream kills the thread in whichever attempt it happens (`EndOfStreamAlwaysKillsThread`).
- The handshake reply is the block's first `param_len` bytes; the padding is not sent. `build_parameters` itself allows an empty option list, with `param_len` 0 and an empty reply. `main` never gives it one: it exits when fewer than five arguments are given (`ToyVpnServer2.c` lines 697-711).
- The session's poll is initialised in `create_client_node` (line 383) on `client->tun_fd`, which is still 0 there: the TUN descriptor is stored only at line 637. The poll's events therefore describe descriptor 0, not the TUN device. `OnPoll` takes the event bits as given, so it covers whatever readiness arrives. All sessions read from the same TUN descriptor, so which session receives a packet the device produces is decided by the order of the reads. The model does not decide it: `OnTunReadDone` takes the read's owner and bytes as parameters.
- The session table is a set ordered by the nodes' memory addresses. It is modelled in creation order, and the invariant shows that at most one session per address exists, so the order never changes which session a datagram reaches.
- Every session in the table is verified between events: a new session is handed its first, non-empty packet at once and either becomes verified or leaves.

## Left out

- libuv plumbing is not modelled: handle initialisation, reference counting and `*_close_done` callbacks, buffer allocation and freeing. Only the observable effects are kept: sends, TUN reads and writes, poll starts, and timer state.
- Socket and TUN setup (`create_toyvpn_udp_listener`, `get_interface`), `main`'s argument parsing and signal registration are left out. They are system calls with no logic to prove.
- Logging, on both sides, is left out.
- The 256-byte secret buffer filled by `strncpy` is not modelled; the secret is any byte sequence, read as its C string.
- Session.HandlePacket: a handshake packet too short to contain the whole secret is treated as a mismatch. In C, `memcmp` then compares bytes past the datagram, whose content is whatever the receive buffer held.
- Server.OnTimer: a timer event is applied only when the session's deadline has passed. Stale firings of a re-armed timer do not happen in libuv, so they are not modelled.
- Server.OnDatagram: the datagram is delivered as bytes. The sockaddr is compared as a byte string, as `memcmp` does, and the padding bytes of `sockaddr_universal` are not modelled.
- The Android platform is treated as external: `VpnService.Builder`, `protect`, `DatagramChannel` and file descriptors become the attempt's `Course`, a parameter.
- The forwarding loop never ends by itself. It is modelled over a finite sequence of packets followed by the exception that breaks it. `tunnel.write` is commented out in the source, so the tunnel receives nothing.
- `setOnConnectListener` and the `synchronized (mService)` blocks are not modelled: the listener is fixed for the whole thread, and concurrent replacement of it is left out.
- Exceptions from the `close` calls in the attempt's `finally` are caught and logged by the source, and are not modelled.
- ClientLifecycle.RunThread: the three-second sleep is modelled only by whether it is interrupted; time is not modelled.
