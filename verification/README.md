# NetOutput: the network output sink of cb-event-forwarder

cb-event-forwarder forwards Carbon Black sensor events to outputs. One of
these outputs is `NetOutput`, which writes each event to a socket opened by
`net.Dial` (tcp, udp, unix and the other networks Go's dialler accepts).
A `NetOutput` holds:

- a connection specification `protocol:target` (for example
  `tcp:siem.example.com:512`), split into protocol and remote target;
- a framing flag: protocols whose name starts with "tcp" get a `"\r\n"`
  after every message (other stream sockets, such as unix, do not);
- a connection state: connected or not, when it connected, and when it may
  next retry;
- two counters: the events dropped in total, and that total as it stood at
  the last connection.

The sink has a control loop. It writes each message it receives, counts the
ones that arrive while it is disconnected (a message whose write fails is
lost without being counted), retries the connection once a second after a 5-second
back-off, and stops on SIGTERM or SIGINT.

The project has four modules:

- `ConnSpec` (conn_spec.dfy) covers the string handling:
  - splitting the specification on its first colon (`strings.SplitN(spec, ":", 2)`);
  - the `tcp` prefix test;
  - CRLF framing.
- `NetState` (net_state.dfy) is the sink as a state machine on values:
  - `Sink` is the struct's fields as a datatype;
  - each operation is a function from the old state and the outside world's
    answers to the new state;
  - `Step` is one pass of the `select` loop;
  - `Run` is the loop over a sequence of events.

  The two invariants are:
  - `Valid`: only a live socket counts as connected, the since-connection
    counter never exceeds the total, and a sink without a specification has
    no socket;
  - `Configured`: protocol and target are the two halves of the
    specification, and a tcp-prefixed protocol has framing on.

  The properties of the sink are proved here as lemmas over traces of events.
- `Outputs` (net_output.dfy) is the class `NetOutput`. Its fields are the
  struct's fields. Its methods update them in place, and each is proved to
  leave exactly the state the matching `NetState` function computes. The
  control loop is a `while` loop over the events.
- `AsWritten` (as_written.dfy) is `Initialize` exactly as the source writes
  it, kept for the finding below.

The outside world enters only as parameters:

- whether `net.Dial` succeeds;
- whether the socket's `Write` succeeds;
- the wall-clock time `now`, in nanoseconds;
- the events the loop receives, each a message, a tick of the one-second
  ticker, or an OS signal.

The socket itself is abstracted to one of three values:

- `Nil`: never dialled, or the last dial failed;
- `Live`;
- `Closed`: still non-nil, so `Go` does not refuse to start.

## Model

| member | source | states |
|---|---|---|
| ConnSpec.FirstColon | pkg/outputs/net_output.go:60 | the index found holds a colon, and no colon comes before it |
| ConnSpec.SplitSpec | pkg/outputs/net_output.go:60-63 | the specification is the protocol, a colon and the remote target, and the protocol contains no colon (the split is at the first colon; later colons stay in the target) |
| ConnSpec.SplitSpecOfJoin | pkg/outputs/net_output.go:60-63 | splitting undoes joining: a colon-free protocol joined to any target by a colon splits back into exactly that protocol and target |
| ConnSpec.SplitSpecKeepsLaterColons | pkg/outputs/net_output.go:47-49 | "tcp:127.0.0.1:9999" splits into "tcp" and "127.0.0.1:9999", keeping the port's colon in the target |
| ConnSpec.Frame | pkg/outputs/net_output.go:135-137 | the payload is the message followed by CRLF when framing is on and by nothing otherwise (its length, its prefix and its suffix) |
| ConnSpec.FrameInjective | pkg/outputs/net_output.go:135-137 | two messages framed alike have equal frames if and only if they are equal |
| ConnSpec.FrameAll | pkg/outputs/net_output.go:145 | one payload per message, in order, each the frame of its message |
| NetState.NewSink | pkg/outputs/net_output.go:35-37 | a new sink has no specification, no socket, is not connected and has dropped nothing, and satisfies both invariants |
| NetState.MarkConnected | pkg/outputs/net_output.go:81-90 | the sink becomes connected as of `now`; the since-connection counter equals the total, and the total is unchanged; nothing else changes |
| NetState.Close | pkg/outputs/net_output.go:96-99 | a connected sink ends up disconnected with a closed socket; a disconnected one is unchanged; nothing else changes |
| NetState.CloseAndScheduleReconnection | pkg/outputs/net_output.go:92-105 | afterwards the sink is disconnected and its next reconnection is due exactly 5 s after `now`; only a connected sink's socket is closed; nothing else changes |
| NetState.CloseAndScheduleAgainOnlyMovesReconnectTime | pkg/outputs/net_output.go:92-102 | a second close-and-schedule changes nothing but the time of the next reconnection |
| NetState.Configure | pkg/outputs/net_output.go:58-67 | the specification is recorded and split into protocol and target; framing is turned on for a tcp-prefixed protocol and never turned off; connection state and counters are untouched |
| NetState.Dial | pkg/outputs/net_output.go:69-76 | the error is absent exactly when the dial succeeds; success marks the sink connected as of `now` with the counters equal; failure leaves it without a socket, otherwise unchanged, and reports the specification |
| NetState.Initialize | pkg/outputs/net_output.go:50-79 | the specification is recorded and split; framing stays on once on; the error is absent exactly when the dial succeeds and otherwise names the specification; success means connected, a live socket, `connectTime == now` and the counters equal; failure means no socket, and connect time and counters unchanged; reconnect time and total count are never changed |
| NetState.Output | pkg/outputs/net_output.go:134-150 | while disconnected: nothing passed to `Write`, no error, the total count up by exactly one and nothing else changed; while connected: exactly the frame is passed to `Write`; a successful write changes nothing; a failed write returns the error, closes and schedules the reconnection, and loses the message without counting it as dropped |
| NetState.Step | pkg/outputs/net_output.go:162-183 | a message is dropped (and counted once) exactly when disconnected and passed to `Write` exactly when connected (a failed write included); the counters never decrease; framing stays on; a failed write disconnects until `now` + 5 s; a tick changes nothing unless disconnected and strictly after the reconnect time, and then either reconnects with the counters equal or backs off to `now` + 5 s; signals change nothing, and only SIGTERM and SIGINT end the loop |
| NetState.StepKeepsConfiguration | pkg/outputs/net_output.go:169-175 | no event changes protocol, target or framing, and the configuration invariant is kept (a tick re-splits the recorded specification into the same two parts) |
| NetState.Run | pkg/outputs/net_output.go:162-183 | the control loop keeps the sink valid and initialised |
| NetState.RunSnoc | pkg/outputs/net_output.go:162-183 | extending a run that has not exited by one event is one more step on the state it reached, appending that step's write attempt and drop |
| NetState.RunAccountsForEveryMessage | pkg/outputs/net_output.go:139-149 | over any run, the total count grows by exactly the number of dropped messages; neither counter decreases; framing stays on; every message processed is dropped or passed to `Write`, never both; if the loop has not exited, the number dropped plus the number of write attempts equals the number of messages (a message whose write failed is in neither the drop count nor the delivered output) |
| NetState.RunKeepsConfiguration | pkg/outputs/net_output.go:162-183 | over any run, the configuration invariant holds and protocol, target and framing are unchanged |
| NetState.DisconnectedDropsEveryMessage | pkg/outputs/net_output.go:139-143 | a disconnected sink receiving only messages attempts no write, drops every message, and its total count rises by exactly their number |
| NetState.ConnectedDeliversInOrder | pkg/outputs/net_output.go:164-167 | a connected sink whose writes all succeed writes every message, framed, in the order received, and its state does not change |
| NetState.NothingAfterExit | pkg/outputs/net_output.go:176-181 | once the loop has exited, later events have no effect |
| NetState.RunExitsAtTermination | pkg/outputs/net_output.go:176-181 | the loop processes every event before the first SIGTERM or SIGINT, exits there, and ignores everything after it |
| NetState.Go | pkg/outputs/net_output.go:152-188 | `Go` fails with "socket not open" exactly when the socket is nil, and then does nothing; otherwise it runs the control loop |
| NetState.GoNeedsASuccessfulDial | pkg/outputs/net_output.go:153-155 | `Go` refuses a new sink, and after `Initialize` it starts if and only if the dial succeeded |
| Outputs.NetOutput.constructor | pkg/outputs/net_output.go:35-37 | the new object's fields are the zero sink |
| Outputs.NetOutput.Initialize | pkg/outputs/net_output.go:50-79 | the fields become `NetState.Initialize` of the old fields, and the returned error is its error; both invariants are kept |
| Outputs.NetOutput.Close | pkg/outputs/net_output.go:54-56 | the fields become `NetState.Close` of the old fields: this is the corrected close of the Findings row, which also clears `connected` (as lines 96-99 do), where lines 54-56 only close the socket |
| Outputs.NetOutput.Configure | pkg/outputs/net_output.go:58-67 | the fields become `NetState.Configure` of the old fields |
| Outputs.NetOutput.Dial | pkg/outputs/net_output.go:69-76 | the fields and the error are those of `NetState.Dial` |
| Outputs.NetOutput.MarkConnected | pkg/outputs/net_output.go:81-90 | the fields become `NetState.MarkConnected` of the old fields |
| Outputs.NetOutput.CloseAndScheduleReconnection | pkg/outputs/net_output.go:92-105 | the fields become `NetState.CloseAndScheduleReconnection` of the old fields |
| Outputs.NetOutput.Key | pkg/outputs/net_output.go:107-112 | the key is empty exactly when the sink never had a specification (and then it has no socket and is not connected); otherwise it is the protocol and target joined by a colon, that is, the specification |
| Outputs.NetOutput.String | pkg/outputs/net_output.go:114-119 | the display name is the key |
| Outputs.NetOutput.Statistics | pkg/outputs/net_output.go:121-132 | the snapshot reports exactly the connection flag, the total drop count (never negative), the last connect time, the protocol and the remote target; for an initialised sink the key is rebuilt from the protocol and target it reports |
| Outputs.NetOutput.Output | pkg/outputs/net_output.go:134-150 | the fields, the payload passed to `Write` and the error are those of `NetState.Output` |
| Outputs.NetOutput.Step | pkg/outputs/net_output.go:163-182 | the fields, the payload passed to `Write`, whether a message was dropped and whether the loop exits are those of `NetState.Step` |
| Outputs.NetOutput.Iterate | pkg/outputs/net_output.go:162-183 | one pass of the loop extends the run so far by one event |
| Outputs.NetOutput.Serve | pkg/outputs/net_output.go:157-185 | the loop over the events leaves the fields, the write attempts and the exit flag that `NetState.Run` gives |
| Outputs.NetOutput.Go | pkg/outputs/net_output.go:152-188 | the error, final fields, payloads and exit flag are those of `NetState.Go` |
| AsWritten.InitializeAsWritten | pkg/outputs/net_output.go:50-79 | `Initialize` as written: it differs from `NetState.Initialize` only when a connected sink's dial fails; then the sink stays connected with a nil socket, which breaks `Valid` |
| AsWritten.ReinitializeAfterListenerGone | pkg/outputs/net_output.go:54-74 | connecting to "tcp:127.0.0.1:9999" and then re-initialising with a failed dial leaves, as written, a connected sink with no socket |

## Left out

- Sockets: `net.Dial`, `Write` and `Close` are not modelled as I/O. A dial or a write is a boolean success input. The socket is `Nil`, `Live` or `Closed`. The `attempted` results are the payloads passed to `Write`, failed writes included. A message whose write fails is lost and is not added to `droppedEventCount`, as in the source (lines 145-149).
- The goroutine, `time.NewTicker`, the channel `select` and `exitCond.Signal` are not modelled. The loop receives an explicit sequence of events, and its end is reported as a flag. Which channel `select` picks, and when, is the order of that sequence.
- Reading from a closed `messages` channel, which yields empty strings forever, is not modelled separately. Such a read is an ordinary message event.
- `sync.RWMutex` and `atomic.AddInt64` are left out. The model is sequential and each method is atomic.
- `time.Now()` becomes the `now` parameter, in nanoseconds from an epoch at which a new sink's zero times sit (0); real readings are positive, and the model does not exclude a tick at `now <= 0`. During one tick, the reconnect attempt and the rescheduling after it use the same `now`. The source reads the clock separately for each.
- Logging, and the `Config.DryRun` check, are left out. The check only decides whether an error is logged.
- A specification without a colon is excluded by a precondition (`Colon in spec`). The source indexes the missing second part of the split and panics.
- NetState.Output: `droppedEventCount` is an unbounded integer. The model does not capture int64 wrap-around after 2^63 drops.
- The `Config` pointer is not part of this model. It is only read for `DryRun`.
- The other outputs (file, object storage) and the code that creates and drives outputs are not part of this model.
- NetState.Run: its own contract states only `Valid` and `Initialized`; `Configured` is kept by `RunKeepsConfiguration`. Its accounting and ordering properties are the lemmas listed in the Model table.

## Findings

| source | as written | input that shows it | evidently intended | confidence | as-written member | corrected member |
|---|---|---|---|---|---|---|
| pkg/outputs/net_output.go:54-56 | when a connected sink is re-initialised, the old socket is closed but `connected` stays true; if the new dial then fails, `outputSocket` is nil (lines 70-74) while `connected` is still true, and the next message calls `Write` on a nil connection | `Initialize("tcp:127.0.0.1:9999")` with a successful dial, then `Initialize("tcp:127.0.0.1:9999")` again with the dial failing | closing the old socket also clears `connected`, as `closeAndScheduleReconnection` does at lines 96-99, so a failed re-dial leaves a disconnected sink that drops messages and retries on the next tick | low: the control loop only re-initialises a disconnected sink, so this needs an outside call on a connected one; not executed | AsWritten.ReinitializeAfterListenerGone | NetState.Initialize |
