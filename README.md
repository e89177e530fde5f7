# Chat session authority, in Dafny

This project models the session authority of a small TCP chat. Each server keeps two
registries:

- the sessions, keyed by full peer address;
- the ban records, keyed by IP.

The server reads connect, disconnect and message events one at a time from a queue. For each
event it decides what happens to the two maps and which writes, shutdowns and closes go to
which sockets.

The authority exists in four versions, one module each:

| module | source | what is particular to it |
|---|---|---|
| `Authority` | `src/server.rs` | the current Rust server, with a token-authentication gate and a command table |
| `Relay` | `src/main.rs` | the earlier Rust server, with no authentication |
| `GoRelay` | `main.go` | the Go server |
| `Legacy` | `legacy.go` | the older Go server, with a cleaned name per client and `name: text` payloads |

`ChatClient` models the terminal client of `src/client.rs`:

- the reducer over key presses, pastes and Enter, with the same first-prefix command dispatch;
- the tail index of the chat window.

Shared pieces:

| module | what it holds |
|---|---|
| `Utf8` | bytes; UTF-8 well-formedness (section 4 of RFC 3629, the rule behind Rust's `from_utf8` and Go's `utf8.ValidString`); trimming of Unicode whitespace |
| `Wire` | addresses; the socket-effect log; the broadcast loop and its fan-out specification |
| `Frames` | the Rust readers' control-byte filter |
| `Commands` | the command table and its first-match rule |

Each server has two layers:

- **The step function.** `Step(s, e, now, ...)` returns an `Effect`. An `Effect` holds:
  - the next pair of maps;
  - the replies to the author, in order;
  - the broadcast recipient set and its payload.

  The lemmas about one step and about runs of steps are stated over this function.
- **The `Server` class.** Its fields are the two maps and an output log `out`. Every method
  ensures two things:
  - its new maps are those of the step function;
  - its log grew by exactly the step's replies, followed by one write of the payload to each
    recipient (`Wire.Emitted`).

  A broadcast iterates over a hash map, so the order of those writes is not determined.
  `Wire.FanOut` states only what is fixed: each recipient gets exactly one write, and there
  are no other writes.

Time is a `nat` count of nanoseconds, and every `now` is a parameter. The Rust servers panic
when the clock goes backwards (`duration_since(...).expect`). The model turns that into the
precondition `Timely`: no stored timestamp lies after `now`. Go compares signed durations and
does not panic, so in `GoRelay` and `Legacy` `Elapsed` is a signed integer and there is no
precondition.

### Where the code differs from its own description

The model follows the code:

- **`last_message` is only set at connect.** The Rust servers write it at connect and never
  again (src/server.rs:175, src/main.rs:100). The rate window is therefore measured from the
  connection. `Authority.SessionHistory` and `Relay.SessionHistory` prove this over any run.
- **A banned session stays registered.** In both Rust and both Go servers, the session stays
  in the map after a ban, until it disconnects. Each further violation rewrites the ban
  record with a fresh time (`Authority.BurstStrikes`).
- **Command frames are relayed without an auth check.** In src/server.rs a command frame is
  relayed whatever the sender's authentication. The only exception is `/auth` from an
  unauthenticated session.
- **No other command runs on the server.** `/quit`, `/help` and `/nick` are never executed
  there. They get "Already authorized." and are then relayed too.
- **A wrong `/auth` still echoes the argument, as written.** After a wrong `/auth` shuts the
  socket down and removes the session (src/server.rs:317-327), the text goes on to call
  `auth_command` on that same connection (src/server.rs:337-345). The model follows the text as
  written and keeps that write after the shutdown. Two facts about the real program go beyond
  the text:
  - `author` is borrowed mutably from `clients` at src/server.rs:281 and that borrow is used
    again at 337-338, after `clients.remove` at 327. The Rust compiler rejects this (error
    E0499, a second mutable borrow), so src/server.rs as given does not build.
  - If it were built, the echo would go to a socket already shut down, and `auth_command`
    calls `.unwrap()` on that write (src/server.rs:70). A non-empty wrong argument would then
    panic the authority thread. An empty argument writes nothing and would not fail.
- **The src/server.rs reader dies on two inputs without telling the server:**
  - a frame that is empty after filtering, since `bytes[0..1]` panics;
  - a frame whose first byte is not ASCII, since `from_utf8` fails.
- **The reader in src/main.rs still forwards** a frame that is empty after filtering.
- **Go time units are seconds.** `BanLimit` is 10 seconds and `MessageRate` is 1 second.
  The Go servers ban only when the count is strictly above `StrikeLimit`, and they close the
  connection without a ban notice.

## Model

| member | source | states |
|---|---|---|
| Utf8.CharLen | src/server.rs:206 | the length of the well-formed UTF-8 character at the start is at most 4 and at most the input length; an ASCII lead byte gives exactly 1, and a non-zero length is 1 only for an ASCII lead byte |
| Utf8.CharLenShape | src/server.rs:206 | a character longer than one byte is continuation bytes after a lead byte in C2-DF (length 2), E0-EF (3) or F0-F4 (4) |
| Utf8.AsciiIsValid | src/server.rs:426-429 | a sequence of 7-bit bytes is well-formed UTF-8 |
| Utf8.ValidConcat | main.go:87 | the concatenation of two well-formed UTF-8 sequences is well-formed |
| Utf8.TrimStart | src/server.rs:294 | the result is a suffix of the input, everything dropped is whitespace, and the result does not start with whitespace |
| Utf8.TrimEnd | legacy.go:51 | the result is a prefix of the input, everything dropped is whitespace, and the result does not end with whitespace |
| Utf8.Trim | legacy.go:51 | the result is a contiguous piece of the input with only whitespace before and after it, and it neither starts nor ends with whitespace |
| Utf8.TrimmedIsFixed | legacy.go:51 | text with no whitespace at either end is left unchanged by trimming |
| Utf8.TrimIdempotent | legacy.go:51 | trimming twice is trimming once |
| Utf8.TrimStartOfSpaceThenText | src/server.rs:293-294 | trimming the start of whitespace followed by text that does not start with whitespace gives exactly that text |
| Wire.RecipientsIgnoreAuthor | main.go:86-92 | changing the author's own entry before the loop does not change who receives the message |
| Wire.RecipientsOfAnyone | src/main.rs:119-120 | a filter only narrows the recipients; with none, every registered address other than the author receives, one fewer than the registered count when the author is registered |
| Wire.Broadcast | src/server.rs:210-216 | the loop over the sessions writes the data exactly once to each recipient and nothing else |
| Wire.FanOutReachesExactly | src/main.rs:119-125 | a fan-out's writes go to every recipient and to no other address |
| Frames.Printable | src/main.rs:183-188 | the forwarded bytes are all at least 32, and a read with no control byte is forwarded whole |
| Frames.PrintableConcat | src/main.rs:184-188 | filtering distributes over concatenation, so the kept bytes keep their order |
| Frames.PrintableIdempotent | src/server.rs:420-425 | filtering an already filtered frame changes nothing |
| Frames.FilterControl | src/server.rs:420-425 | the push loop produces exactly the filtered bytes |
| Commands.FirstMatch | src/server.rs:291-292 | the chosen entry's name starts the text, no earlier entry's does, and no entry is chosen exactly when no name starts the text |
| Commands.FirstMatchUnique | src/client.rs:173-174 | any index with the first-match property is the one `FirstMatch` returns |
| Authority.CommandNamesEncodeTable | src/server.rs:48-67 | the server's byte command names are, entry by entry, the ASCII encoding of the client's table names |
| Commands.FindCommand | src/server.rs:289-349 | the dispatch loop with `break` chooses the first matching entry |
| Authority.StepKeepsTimely | src/server.rs:142-144 | after any event no stored time lies after a later `now`, so the queue can go on without a clock panic |
| Authority.ConnectHonoursBan | src/server.rs:138-179 | a ban record in force is kept, no session is created, and the connection gets the notice and a shutdown; otherwise the record is dropped and a fresh unauthenticated session with no strikes and window `now` is added |
| Authority.DisconnectRemovesOnly | src/server.rs:193-196 | only that address's entry goes, the bans are unchanged, nothing is sent, and a second disconnect changes nothing |
| Authority.UnknownAuthorIgnored | src/server.rs:200 | a text or command frame from an address with no session changes nothing and sends nothing |
| Authority.ViolationAddsOneStrike | src/server.rs:248-276 | a frame too early or not UTF-8 adds exactly one strike, changes no other field, relays nothing, and bans the IP with "You are banned!" and a shutdown exactly when the count reaches the limit |
| Authority.TextAuthGate | src/server.rs:217-246 | an unauthenticated, well-timed text frame authenticates exactly when it equals the token, and otherwise ejects the session with "Invalid token!" and a shutdown, without a strike |
| Authority.CommandIsDispatched | src/server.rs:280-287 | a well-timed UTF-8 command frame from a registered session goes to the dispatch |
| Authority.AuthDispatch | src/server.rs:291-345 | `/auth` from an unauthenticated session admits or ejects by the argument, then echoes the argument |
| Authority.CommandAuthGate | src/server.rs:293-345 | the outcome on the wire of `/auth <arg>`: welcome plus echo when the argument is the token; otherwise invalid-token, shutdown, echo, and the session removed |
| Authority.CommandFallsThrough | src/server.rs:329-358 | every other command frame leaves the maps alone and is relayed to the other authenticated sessions whatever the sender's state, with "Already authorized." exactly when a command name matched |
| Authority.BroadcastOnlyToAuthedOthers | src/server.rs:207-216 | for any event, recipients are authenticated other sessions, a broadcast changes no map and carries the frame, and on the text path the sender is authenticated |
| Authority.TextRelayed | src/server.rs:207-216 | an authenticated, well-timed UTF-8 text frame goes to exactly the other authenticated sessions and changes nothing |
| Authority.BansChangeOnlyAtStrikeOut | src/server.rs:250-252 | a ban record is added or rewritten only for a frame author's IP, at `now`, when the strike count has reached the limit; one is dropped only on a connect that registers that address |
| Authority.AuthorSuccessor | src/server.rs:245 | a strike, an admission, an ejection and a dispatch leave every surviving session with the same `last_message`, at least as many strikes, and authentication kept |
| Authority.StepSuccessor | src/server.rs:193-391 | apart from a reconnect of the same address, one event only adds strikes or authentication to a surviving session |
| Authority.SessionHistory | src/server.rs:175 | over any run without a reconnect, a surviving session keeps its connect-time `last_message`, strikes never decrease and authentication is never withdrawn |
| Authority.BurstStrikes | src/server.rs:263-276 | a burst of frames inside the connection's rate window adds one strike per frame and touches no other session; the ban record holds the last frame's time exactly when the count reached the limit |
| Authority.TokenScenarioAdmits | src/server.rs:171-227 | with token "ABCD", a client that connects at 0 and sends "ABCD" two seconds later is registered, then authenticated and welcomed |
| Authority.TokenScenarioJoins | src/server.rs:171-179 | a second client connecting from another address is registered beside the first |
| Authority.TokenScenarioEjects | src/server.rs:228-246 | the second client sending "WRONG" gets "Invalid token!", a shutdown and removal, and the first session is untouched |
| Authority.NickCandidate | src/server.rs:87-91 | the candidate is at most 16 bytes and has no whitespace at either end |
| Authority.SetNickCommand | src/server.rs:86-104 | an empty candidate, or one equal to the current nickname, is refused with a notice; every other candidate becomes the nickname and "Nickname changed from old to new" is the reply; a changed nickname is non-empty, at most 16 bytes and trimmed |
| Authority.SetNickRepeatRefused | src/server.rs:92-96 | repeating a successful change with the same prompt is refused |
| Authority.ReadFrame | src/server.rs:409-455 | a read error or end of stream sends a disconnect and ends the reader; otherwise the filtered bytes are forwarded, as a command exactly when they start with `/`; the reader dies when nothing is left or the first byte is not ASCII |
| Authority.Server.Connected | src/server.rs:136-192 | the maps after a connect are those of the step function, and the log grew by its replies |
| Authority.Server.Disconnected | src/server.rs:193-196 | the entry is removed and nothing is written |
| Authority.Server.RecordStrike | src/server.rs:248-261 | the in-place strike increment and ban, as the step function states |
| Authority.Server.RelayFrame | src/server.rs:210-216 | the maps are unchanged and the log gains one write per authenticated other session |
| Authority.Server.AdmitAuthor | src/server.rs:218-227 | the session becomes authenticated and "Welcome!" is written |
| Authority.Server.EjectAuthor | src/server.rs:228-246 | "Invalid token!" and a shutdown are written and the session is removed |
| Authority.Server.TextMessage | src/server.rs:199-279 | the text arm matches the step function in maps and log |
| Authority.Server.RunCommand | src/server.rs:288-359 | the command dispatch matches the step function in maps and log, including the echo and the fall-through relay |
| Authority.Server.CommandMessage | src/server.rs:280-391 | the command arm matches the step function in maps and log |
| Authority.Server.Handle | src/server.rs:135-394 | one iteration of the server loop matches the step function in maps and log |
| Authority.Server.Serve | src/server.rs:130-396 | after a chronological queue, the maps are those of the run, and the log only grew |
| Relay.StepKeepsTimely | src/main.rs:113-115 | after any event no stored time lies after a later `now` |
| Relay.ConnectHonoursBan | src/main.rs:63-104 | a record in force is kept, no session is created, and a notice and shutdown are sent; otherwise a fresh session is added and any stale record removed |
| Relay.DisconnectAndUnknown | src/main.rs:106-111 | disconnect removes that key only and is idempotent; `New` from an unknown address changes nothing |
| Relay.ViolationAddsOneStrike | src/main.rs:126-155 | a rate miss or a frame that is not UTF-8 adds exactly one strike and relays nothing; the ban is recorded at `now`, with notice and shutdown, exactly at the limit, and the session stays |
| Relay.AcceptedReachesAllOthers | src/main.rs:116-125 | an accepted frame goes, unchanged, to every other registered session with no auth filter, and both maps stay the same |
| Relay.StepSuccessor | src/main.rs:106-157 | apart from a reconnect, one event only adds strikes to a surviving session |
| Relay.SessionHistory | src/main.rs:100 | over any run without a reconnect, a surviving session keeps its connect-time window and its strikes never decrease |
| Relay.ReadFrame | src/main.rs:172-202 | a read error or end of stream sends a disconnect and ends the reader; any other read forwards exactly the filtered bytes, even none |
| Relay.Server.Connected | src/main.rs:61-105 | the connect arm matches the step function in maps and log |
| Relay.Server.Disconnected | src/main.rs:106-109 | the entry is removed and nothing is written |
| Relay.Server.RecordStrike | src/main.rs:127-139 | the in-place strike increment and ban match the step function |
| Relay.Server.New | src/main.rs:110-157 | the message arm matches the step function in maps and log |
| Relay.Server.Handle | src/main.rs:60-158 | one loop iteration matches the step function |
| Relay.Server.Serve | src/main.rs:55-160 | after a chronological queue the maps are those of the run, and the log only grew |
| GoRelay.ConnectChecksBan | main.go:56-76 | a record in force is left as it is, no client is added and the conn is told and closed; otherwise the record is deleted and a fresh client added |
| GoRelay.DisconnectDeletesKey | main.go:77-80 | the full-address key alone is deleted, and a second delete changes nothing |
| GoRelay.UnknownSenderClosed | main.go:113-115 | a message from an unregistered conn closes it and changes neither map |
| GoRelay.AcceptedResets | main.go:86-98 | an accepted message sets strikes to 0 and the window to `now`, and reaches every other client verbatim; bans are unchanged |
| GoRelay.RejectedStrikes | main.go:99-112 | a rejected message adds one strike and keeps the window; the IP is banned at `now` and the conn closed exactly above the limit, and the client stays |
| GoRelay.BurstHead | main.go:86-112 | a message from a registered client inside its rate window is a strike that leaves `LastMessage` where it was, so the rest of the burst is still inside the window |
| GoRelay.BurstStrikes | main.go:81-112 | any run of messages from one client, at any times each less than `MessageRate` after its `LastMessage`, adds one strike per message; the IP's ban record holds the last message's time exactly when the count has gone above `StrikeLimit`, so within the limit nobody is banned, and the client stays registered |
| GoRelay.Server.ClientConnected | main.go:56-76 | the connect arm matches the step function in maps and log |
| GoRelay.Server.ClientDisconnected | main.go:77-80 | the key is deleted and nothing is written |
| GoRelay.Server.RecordStrike | main.go:100-104 | the pointer-field increment and ban match the step function |
| GoRelay.Server.NewMessage | main.go:81-115 | the message arm matches the step function in maps and log |
| GoRelay.Server.Handle | main.go:54-116 | one loop iteration matches the step function |
| GoRelay.Server.Serve | main.go:50-118 | after a queue the maps are those of the run, and the log only grew |
| Legacy.CleanName | legacy.go:50-57 | the cleaned name is never empty, is UTF-8, and has no whitespace at either end |
| Legacy.CleanNameChoice | legacy.go:53-56 | the trimmed name is kept exactly when it is non-empty UTF-8, and otherwise the result is "anon" |
| Legacy.CleanNameIdempotent | legacy.go:50-57 | cleaning a cleaned name changes nothing |
| Legacy.RelayedPayloadIsUtf8 | legacy.go:98-101 | the relayed "name: text" of a cleaned name and accepted text is well-formed UTF-8 |
| Legacy.ConnectChecksBan | legacy.go:65-87 | an expired or absent record admits the client with its name and window `now` and deletes the record; a record in force rejects and closes |
| Legacy.DisconnectAndUnknown | legacy.go:88-91 | disconnect deletes that key only and is idempotent; a message from an unknown conn closes it and changes no map |
| Legacy.AcceptedRelaysNamed | legacy.go:97-110 | an accepted message resets strikes and window, keeps the stored name, and sends "name: text" to every other client |
| Legacy.RejectedStrikes | legacy.go:111-124 | a violation adds one strike; only above the limit is the IP banned at `now` and the conn closed, and the entry is kept |
| Legacy.Server.ClientConnected | legacy.go:65-87 | the connect arm matches the step function in maps and log |
| Legacy.Server.ClientDisconnected | legacy.go:88-91 | the key is deleted and nothing is written |
| Legacy.Server.RecordStrike | legacy.go:112-116 | the increment and ban match the step function |
| Legacy.Server.NewMessage | legacy.go:92-127 | the message arm matches the step function in maps and log |
| Legacy.Server.Handle | legacy.go:63-128 | one loop iteration matches the step function |
| ChatClient.TrimStart | src/client.rs:175 | a suffix of the input, with only whitespace dropped and no leading whitespace left |
| ChatClient.TrimEnd | src/client.rs:112 | a prefix of the input, with only whitespace dropped and no trailing whitespace left |
| ChatClient.Trim | src/client.rs:112 | the result is a contiguous piece of the input with only whitespace before and after it, and it neither starts nor ends with whitespace |
| ChatClient.TrimKeepsText | src/client.rs:112-113 | text that does not start with whitespace is not empty after trimming |
| ChatClient.HelpLines | src/client.rs:101-104 | n lines, line i being entry i's line |
| ChatClient.EnterRunsFirstCommand | src/client.rs:171-186 | Enter runs the first matching entry with the trimmed rest (or "dummy") and clears the prompt; `/quit` exits |
| ChatClient.ArgumentShape | src/client.rs:175-178 | the argument is never empty and never starts with whitespace; it is "dummy" exactly when the trimmed rest is empty or is "dummy"; otherwise it is a suffix of the rest |
| ChatClient.BareNickIsDummy | src/client.rs:178 | a bare `/nick` sets the nickname to "dummy" and clears the prompt |
| ChatClient.BareNickMatches | src/client.rs:173-174 | a bare `/nick` is recognised as the nickname command |
| ChatClient.DummyIsTrimmed | src/client.rs:112 | the default argument "dummy" has nothing to trim |
| ChatClient.NickRefusalUnreachable | src/client.rs:106-119 | through Enter the nickname handler always gets a non-blank argument, so the nickname is always replaced and the change reported |
| ChatClient.EnterSendsMessage | src/client.rs:187-192 | with no command, "nick: prompt" is sent and shown, and the prompt cleared |
| ChatClient.HelpAddsTable | src/client.rs:98-105 | help adds four lines "name - desc" followed by two line ends, in table order, and changes nothing else |
| ChatClient.EditingKeys | src/client.rs:157-170 | a character or a paste appends to the prompt, Esc clears it, and Ctrl-C sends "nick left." and sets `quit` |
| ChatClient.ChatWindow | src/client.rs:37-41 | the window has min(n, h) lines and they are the last lines of the log, in order |
| ChatClient.NewestLineShown | src/client.rs:38-41 | a line just pushed is the bottom line of any window of positive height |
| ChatClient.Terminal.constructor | src/client.rs:134-146 | the state starts with an empty prompt, the seven intro lines and the nickname "anon" |
| ChatClient.Terminal.AuthCommand | src/client.rs:87-89 | the token is written to the server and nothing else changes |
| ChatClient.Terminal.QuitCommand | src/client.rs:90-97 | the client exits |
| ChatClient.Terminal.HelpCommand | src/client.rs:98-105 | the loop pushes exactly the table's help lines |
| ChatClient.Terminal.SetNickCommand | src/client.rs:106-119 | the in-place nickname update matches `SetNick` |
| ChatClient.Terminal.RunEntry | src/client.rs:176-181 | the table handler chosen by index matches `RunCommand` |
| ChatClient.Terminal.Enter | src/client.rs:171-193 | the Enter arm, with its dispatch loop, matches `OnEnter` |
| ChatClient.Terminal.Handle | src/client.rs:157-199 | one input event matches `Reduce` |

## Left out

- Authority.Server.Serve: states only the final maps and that the log grows. Per step, the log
  is pinned down by `Handle`, but broadcast order is not fixed, so no single function of the
  queue gives the whole log.
- Relay.Server.Serve: the same weakening as `Authority.Server.Serve`, for the same reason.
- GoRelay.Server.Serve: the same weakening as `Authority.Server.Serve`, for the same reason.
- `Legacy` has no run function and no `Serve`. Its loop is the same as main.go's, so only the
  single step (`Legacy.Server.Handle`) is modelled.
- The seconds left in a ban notice are printed as floating-point numbers (`as_secs_f32`,
  `%f`). The model keeps the remaining duration as an integer inside `BanNotice`.
- Go reads the clock twice on connect, once for the ban test and once for `LastMessage`. Both
  are modelled as the same `now`.
- Go's float `Seconds()` comparisons are integer comparisons of nanoseconds.
- The Go reader loops: they forward raw reads with no filter, and their shapes are obvious.
  They are not modelled, and neither is legacy.go's name prompt and first read. `cleanName`,
  which is what the prompt feeds, is modelled.
- The `i32` strike counter of the Rust servers and Go's `int`: overflow would need 2^31
  violations, and counts are unbounded integers here.
- TCP listening and accepting, threads and goroutines, and the mpsc channel: the channel is
  modelled as a sequence of events handled in order.
- Socket write errors and `unwrap` panics on writes are I/O failures and are not modelled.
- Authority.Dispatch: keeps the echo of a wrong `/auth` argument to the connection it has just
  shut down. The real program would either not compile or panic there (see above); the model
  records the write as the text has it. An empty argument is kept as a `Write(a, [])` entry
  in the log, although `write_all` of nothing sends no bytes.
- `peer_addr().expect(...)` on connect (src/server.rs:137, src/main.rs:62) panics when the
  peer address cannot be read. Every event here carries an already resolved `Addr`, so that
  panic is not modelled.
- Logging, redaction (`Sens`, `sensitive`), token generation with `getrandom` and its hex
  printing, and the random colour choice: the token is a parameter of the server.
- `help_command` and `quit_command` of src/server.rs: the server's dispatch never reaches
  them. `set_nick_command` of src/server.rs is modelled (`Authority.SetNickCommand`), though
  the server never reaches it either.
- The client's terminal: raw mode, polling, drawing, resize, the non-blocking socket read
  that pushes received text or sets `quit`, and the `quit` flag ending the outer loop. Only
  the key and Enter reducer and the window's tail index are modelled.
- `exit(1)` is modelled as the `exited` flag; after it the reducer changes nothing.
- Rust's `prompt[0..16]` panics at a byte that is not a character boundary. This is the
  precondition `CanCutAt16` of `Authority.SetNickCommand`.
