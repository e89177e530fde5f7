/** The session authority of the current server (src/server.rs): one thread that takes the
    reader threads' events one at a time and is the only one to touch the client registry
    (keyed by full peer address) and the ban registry (keyed by IP).  It enforces the ban on
    connect, a strike counter for frames that come too early or are not UTF-8, and a token
    gate before anything is relayed.

    `Step` is the specification of handling one event; the class `Server` is the event loop
    with its two maps and a log of socket effects, and each of its methods is proved to do
    what `Step` says. */
module Authority {
  import opened Utf8
  import opened Wire
  import opened Frames
  import opened Commands

  /** Time is a count of nanoseconds. */
  const NANOS_PER_SEC: nat := 1_000_000_000
  const BAN_LIMIT: nat := 10 * 60 * NANOS_PER_SEC
  const MESSAGE_RATE: nat := NANOS_PER_SEC
  const STRIKE_LIMIT: int := 10

  /** "Welcome!\n" */
  const WELCOME: seq<byte> := [0x57, 0x65, 0x6C, 0x63, 0x6F, 0x6D, 0x65, 0x21, 0x0A]
  /** "Invalid token!\n" */
  const INVALID_TOKEN: seq<byte> := [0x49, 0x6E, 0x76, 0x61, 0x6C, 0x69, 0x64, 0x20, 0x74, 0x6F, 0x6B, 0x65, 0x6E, 0x21, 0x0A]
  /** "You are banned!\n" */
  const BANNED: seq<byte> := [0x59, 0x6F, 0x75, 0x20, 0x61, 0x72, 0x65, 0x20, 0x62, 0x61, 0x6E, 0x6E, 0x65, 0x64, 0x21, 0x0A]
  /** "Already authorized." */
  const ALREADY_AUTHORIZED: seq<byte> := [0x41, 0x6C, 0x72, 0x65, 0x61, 0x64, 0x79, 0x20, 0x61, 0x75, 0x74, 0x68, 0x6F, 0x72, 0x69, 0x7A, 0x65, 0x64, 0x2E]
  /** "Nickname cannot by empty or same.\r\n" */
  const NICK_REJECTED: seq<byte> := [0x4E, 0x69, 0x63, 0x6B, 0x6E, 0x61, 0x6D, 0x65, 0x20, 0x63, 0x61, 0x6E, 0x6E, 0x6F, 0x74, 0x20, 0x62, 0x79, 0x20, 0x65, 0x6D, 0x70, 0x74, 0x79, 0x20, 0x6F, 0x72, 0x20, 0x73, 0x61, 0x6D, 0x65, 0x2E, 0x0D, 0x0A]
  /** "Nickname changed from " */
  const NICK_CHANGED_FROM: seq<byte> := [0x4E, 0x69, 0x63, 0x6B, 0x6E, 0x61, 0x6D, 0x65, 0x20, 0x63, 0x68, 0x61, 0x6E, 0x67, 0x65, 0x64, 0x20, 0x66, 0x72, 0x6F, 0x6D, 0x20]
  /** " to " */
  const NICK_TO: seq<byte> := [0x20, 0x74, 0x6F, 0x20]
  /** "\r\n" */
  const CRLF: seq<byte> := [0x0D, 0x0A]

  /** The command names "/auth", "/quit", "/help" and "/nick" as bytes, in table order. */
  const COMMAND_NAMES: seq<seq<byte>> := [
    [0x2F, 0x61, 0x75, 0x74, 0x68],
    [0x2F, 0x71, 0x75, 0x69, 0x74],
    [0x2F, 0x68, 0x65, 0x6C, 0x70],
    [0x2F, 0x6E, 0x69, 0x63, 0x6B]
  ]

  const SLASH: byte := 0x2F

  /** The byte names are the ASCII encodings of the client's command table, entry by
      entry. */
  lemma CommandNamesEncodeTable()
    ensures |COMMAND_NAMES| == |Commands.NAMES|
    ensures forall i :: 0 <= i < |COMMAND_NAMES| ==> |COMMAND_NAMES[i]| == |Commands.NAMES[i]|
    ensures forall i, j :: 0 <= i < |COMMAND_NAMES| && 0 <= j < |COMMAND_NAMES[i]| ==>
      COMMAND_NAMES[i][j] as int == Commands.NAMES[i][j] as int
  {
  }

  /** One registered session (the connection handle is its address). */
  datatype Client = Client(lastMessage: nat, strikeCount: int, authed: bool)

  /** The two registries. */
  datatype State = State(clients: map<Addr, Client>, bans: map<Ip, nat>)

  datatype Event =
    | Connected(addr: Addr)
    | Disconnected(addr: Addr)
    | TextMessage(addr: Addr, bytes: seq<byte>)
    | CommandMessage(addr: Addr, bytes: seq<byte>)

  function IsAuthed(c: Client): bool { c.authed }

  /** No timestamp in the registries lies after `now`; the server's `duration_since(...)
      .expect(...)` calls panic otherwise. */
  predicate Timely(s: State, now: nat) {
    && (forall a :: a in s.clients ==> s.clients[a].lastMessage <= now)
    && (forall ip :: ip in s.bans ==> s.bans[ip] <= now)
  }

  predicate IsFrame(e: Event) { e.TextMessage? || e.CommandMessage? }

  /** A ban record for `ip` younger than `BAN_LIMIT`. */
  predicate BanInForce(bans: map<Ip, nat>, ip: Ip, now: nat) {
    ip in bans && now - bans[ip] < BAN_LIMIT
  }

  /** A frame that arrives within `MESSAGE_RATE` of the session's `last_message`. */
  predicate TooSoon(c: Client, now: nat) { now - c.lastMessage < MESSAGE_RATE }

  // ------------------------------------------------------------------ one event

  /** `ClientConnected`: the ban record of the IP is taken out of the map; a record in force
      is put back unchanged and the connection is told and shut down; otherwise a fresh,
      unauthenticated session is registered. */
  function OnConnected(s: State, a: Addr, now: nat): Effect<State> {
    if BanInForce(s.bans, a.ip, now) then
      Effect(s, [BanNotice(a, BAN_LIMIT - (now - s.bans[a.ip])), Shutdown(a)], {}, [])
    else
      Quiet(State(s.clients[a := Client(now, 0, false)], s.bans - {a.ip}))
  }

  /** `ClientDisconnected`: the address's entry, if any, goes. */
  function OnDisconnected(s: State, a: Addr): Effect<State> {
    Quiet(State(s.clients - {a}, s.bans))
  }

  /** A frame too early or not UTF-8: one more strike; at the limit the IP is banned from
      `now`, told, and its socket shut down.  The session stays registered. */
  function Strike(s: State, a: Addr, now: nat): Effect<State>
    requires a in s.clients
  {
    var c := s.clients[a];
    var c' := c.(strikeCount := c.strikeCount + 1);
    if c'.strikeCount >= STRIKE_LIMIT then
      Effect(State(s.clients[a := c'], s.bans[a.ip := now]), [Write(a, BANNED), Shutdown(a)], {}, [])
    else
      Quiet(State(s.clients[a := c'], s.bans))
  }

  /** The author becomes authenticated and is welcomed. */
  function Admit(s: State, a: Addr): Effect<State>
    requires a in s.clients
  {
    Effect(State(s.clients[a := s.clients[a].(authed := true)], s.bans), [Write(a, WELCOME)], {}, [])
  }

  /** The author is told its token is wrong, shut down and removed, without a strike. */
  function Eject(s: State, a: Addr): Effect<State> {
    Effect(State(s.clients - {a}, s.bans), [Write(a, INVALID_TOKEN), Shutdown(a)], {}, [])
  }

  /** The frame goes to every other authenticated session. */
  function Relay(s: State, a: Addr, bytes: seq<byte>): Effect<State> {
    Effect(s, [], Recipients(s.clients, a, IsAuthed), bytes)
  }

  /** `TextMessage`. */
  function OnText(s: State, a: Addr, bytes: seq<byte>, now: nat, token: seq<byte>): Effect<State> {
    if a !in s.clients then Quiet(s)
    else if TooSoon(s.clients[a], now) || !ValidUtf8(bytes) then Strike(s, a, now)
    else if s.clients[a].authed then Relay(s, a, bytes)
    else if bytes == token then Admit(s, a)
    else Eject(s, a)
  }

  /** The argument of a command: what follows its name, without leading whitespace. */
  function Argument(bytes: seq<byte>, k: nat): seq<byte>
    requires k < |COMMAND_NAMES| && IsPrefix(COMMAND_NAMES[k], bytes)
  {
    TrimStart(bytes[|COMMAND_NAMES[k]|..])
  }

  /** A well-timed, well-formed command frame.  `/auth` from an unauthenticated session is
      the only command that runs: the token is checked as on the text path and then
      `auth_command` echoes the argument (the server still writes to the connection after
      removing the entry).  Any other match answers "Already authorized." and the frame is
      then relayed, as is a frame that matches no command. */
  function Dispatch(s: State, a: Addr, bytes: seq<byte>, token: seq<byte>): Effect<State>
    requires a in s.clients
  {
    match FirstMatch(COMMAND_NAMES, bytes)
    case None => Relay(s, a, bytes)
    case Some(k) =>
      if k == AUTH && !s.clients[a].authed then
        var arg := Argument(bytes, k);
        var e := if token == arg then Admit(s, a) else Eject(s, a);
        e.(replies := e.replies + [Write(a, arg)])
      else
        Relay(s, a, bytes).(replies := [Write(a, ALREADY_AUTHORIZED)])
  }

  /** `CommandMessage`. */
  function OnCommand(s: State, a: Addr, bytes: seq<byte>, now: nat, token: seq<byte>): Effect<State> {
    if a !in s.clients then Quiet(s)
    else if TooSoon(s.clients[a], now) || !ValidUtf8(bytes) then Strike(s, a, now)
    else Dispatch(s, a, bytes, token)
  }

  /** Handling of one event at time `now` by a server whose token is `token`. */
  function Step(s: State, e: Event, now: nat, token: seq<byte>): Effect<State>
    requires Timely(s, now)
  {
    match e
    case Connected(a) => OnConnected(s, a, now)
    case Disconnected(a) => OnDisconnected(s, a)
    case TextMessage(a, bytes) => OnText(s, a, bytes, now, token)
    case CommandMessage(a, bytes) => OnCommand(s, a, bytes, now, token)
  }

  lemma StepKeepsTimely(s: State, e: Event, now: nat, token: seq<byte>, later: nat)
    requires Timely(s, now) && now <= later
    ensures Timely(Step(s, e, now, token).next, later)
  {
    match e
    case Connected(a) =>
    case Disconnected(a) =>
    case TextMessage(a, bytes) => if a in s.clients { AuthorKeepsTimely(s, a, bytes, now, token, later); }
    case CommandMessage(a, bytes) => if a in s.clients { AuthorKeepsTimely(s, a, bytes, now, token, later); }
  }

  lemma AuthorKeepsTimely(s: State, a: Addr, bytes: seq<byte>, now: nat, token: seq<byte>, later: nat)
    requires a in s.clients && Timely(s, now) && now <= later
    ensures Timely(Strike(s, a, now).next, later)
    ensures Timely(Admit(s, a).next, later) && Timely(Eject(s, a).next, later)
    ensures Timely(Dispatch(s, a, bytes, token).next, later)
  {
  }

  // ------------------------------------------------------------------ a run of events

  datatype Timed = Timed(at: nat, event: Event)

  predicate Chronological(evs: seq<Timed>) {
    forall i, j :: 0 <= i < j < |evs| ==> evs[i].at <= evs[j].at
  }

  /** The registries after handling `evs` in order: the server thread's receive loop. */
  function Run(s: State, evs: seq<Timed>, token: seq<byte>): State
    requires Chronological(evs) && (evs != [] ==> Timely(s, evs[0].at))
    decreases |evs|
  {
    if evs == [] then s
    else
      var s' := Step(s, evs[0].event, evs[0].at, token).next;
      assert evs[1..] != [] ==> Timely(s', evs[1..][0].at) by {
        if |evs| > 1 { StepKeepsTimely(s, evs[0].event, evs[0].at, token, evs[1].at); }
      }
      Run(s', evs[1..], token)
  }

  // ------------------------------------------------------------------ properties of a step

  /** Connect: a ban record in force is kept with its timestamp, no session is created, and
      the connection gets the notice and a shutdown; otherwise the record is dropped and a
      fresh session (no strikes, not authenticated, window starting now) is registered. */
  lemma ConnectHonoursBan(s: State, a: Addr, now: nat, token: seq<byte>)
    requires Timely(s, now)
    ensures var r := Step(s, Connected(a), now, token);
      && r.fanout == {}
      && (BanInForce(s.bans, a.ip, now) ==>
            && r.next == s
            && r.replies == [BanNotice(a, BAN_LIMIT - (now - s.bans[a.ip])), Shutdown(a)])
      && (!BanInForce(s.bans, a.ip, now) ==>
            && r.next.clients == s.clients[a := Client(now, 0, false)]
            && r.next.bans == s.bans - {a.ip}
            && r.replies == [])
  {
  }

  /** Disconnect removes that address's entry and nothing else, and is idempotent. */
  lemma DisconnectRemovesOnly(s: State, a: Addr, now: nat, token: seq<byte>)
    requires Timely(s, now)
    ensures var r := Step(s, Disconnected(a), now, token);
      && r.replies == [] && r.fanout == {}
      && r.next.clients.Keys == s.clients.Keys - {a}
      && (forall b :: b in r.next.clients ==> r.next.clients[b] == s.clients[b])
      && r.next.bans == s.bans
      && Step(r.next, Disconnected(a), now, token).next == r.next
  {
  }

  /** A frame from an address without a session changes nothing and sends nothing. */
  lemma UnknownAuthorIgnored(s: State, e: Event, now: nat, token: seq<byte>)
    requires Timely(s, now) && IsFrame(e) && e.addr !in s.clients
    ensures Step(s, e, now, token) == Quiet(s)
  {
  }

  /** A frame inside the rate window, or one that is not UTF-8, adds exactly one strike and
      changes no other field of the session: `last_message` is not rewritten and the entry is
      kept, also when the strike limit is reached.  Nothing is relayed; the ban record of the
      IP is written, with `now`, exactly when the new count reaches `STRIKE_LIMIT`. */
  lemma ViolationAddsOneStrike(s: State, e: Event, now: nat, token: seq<byte>)
    requires Timely(s, now) && IsFrame(e) && e.addr in s.clients
    requires TooSoon(s.clients[e.addr], now) || !ValidUtf8(e.bytes)
    ensures var r := Step(s, e, now, token); var a := e.addr; var c := s.clients[a];
      && r.next.clients == s.clients[a := c.(strikeCount := c.strikeCount + 1)]
      && r.fanout == {}
      && (c.strikeCount + 1 >= STRIKE_LIMIT ==>
            r.next.bans == s.bans[a.ip := now] && r.replies == [Write(a, BANNED), Shutdown(a)])
      && (c.strikeCount + 1 < STRIKE_LIMIT ==> r.next.bans == s.bans && r.replies == [])
  {
  }

  /** The token gate on the text path: a well-timed UTF-8 frame from an unauthenticated
      session authenticates it exactly when it equals the token; any other frame ejects the
      session without a strike. */
  lemma TextAuthGate(s: State, a: Addr, bytes: seq<byte>, now: nat, token: seq<byte>)
    requires Timely(s, now) && a in s.clients && !s.clients[a].authed
    requires !TooSoon(s.clients[a], now) && ValidUtf8(bytes)
    ensures var r := Step(s, TextMessage(a, bytes), now, token);
      && r.fanout == {} && r.next.bans == s.bans
      && (bytes == token ==>
            r.next.clients == s.clients[a := s.clients[a].(authed := true)] && r.replies == [Write(a, WELCOME)])
      && (bytes != token ==>
            r.next.clients == s.clients - {a} && r.replies == [Write(a, INVALID_TOKEN), Shutdown(a)])
      && (a in r.next.clients <==> bytes == token)
  {
  }

  /** A well-timed UTF-8 command frame from a registered session goes to the dispatch. */
  lemma CommandIsDispatched(s: State, a: Addr, bytes: seq<byte>, now: nat, token: seq<byte>)
    requires Timely(s, now) && a in s.clients
    requires !TooSoon(s.clients[a], now) && ValidUtf8(bytes)
    ensures Step(s, CommandMessage(a, bytes), now, token) == Dispatch(s, a, bytes, token)
  {
  }

  /** The dispatch of `/auth <arg>` from an unauthenticated session. */
  lemma AuthDispatch(s: State, a: Addr, bytes: seq<byte>, token: seq<byte>)
    requires a in s.clients && !s.clients[a].authed
    requires IsPrefix(COMMAND_NAMES[AUTH], bytes)
    ensures var arg := Argument(bytes, AUTH); var e := if token == arg then Admit(s, a) else Eject(s, a);
      Dispatch(s, a, bytes, token) == e.(replies := e.replies + [Write(a, arg)])
  {
    assert FirstMatch(COMMAND_NAMES, bytes) == Some(AUTH);
  }

  /** `/auth <arg>` from an unauthenticated session: authenticated exactly when the argument
      equals the token, ejected otherwise, and in both cases the argument is echoed after the
      verdict; nothing is relayed. */
  lemma CommandAuthGate(s: State, a: Addr, bytes: seq<byte>, now: nat, token: seq<byte>)
    requires Timely(s, now) && a in s.clients && !s.clients[a].authed
    requires !TooSoon(s.clients[a], now) && ValidUtf8(bytes)
    requires IsPrefix(COMMAND_NAMES[AUTH], bytes)
    ensures var r := Step(s, CommandMessage(a, bytes), now, token); var arg := Argument(bytes, AUTH);
      && r.fanout == {} && r.next.bans == s.bans
      && (arg == token ==>
            && r.next.clients == s.clients[a := s.clients[a].(authed := true)]
            && r.replies == [Write(a, WELCOME), Write(a, arg)])
      && (arg != token ==>
            && r.next.clients == s.clients - {a}
            && r.replies == [Write(a, INVALID_TOKEN), Shutdown(a), Write(a, arg)])
  {
    CommandIsDispatched(s, a, bytes, now, token);
    AuthDispatch(s, a, bytes, token);
  }

  /** Every other well-timed UTF-8 command frame is relayed, whatever the sender's
      authentication: a frame naming a command other than an unauthenticated `/auth` first
      gets "Already authorized."; a frame naming none gets no reply.  Registries unchanged. */
  lemma CommandFallsThrough(s: State, a: Addr, bytes: seq<byte>, now: nat, token: seq<byte>)
    requires Timely(s, now) && a in s.clients
    requires !TooSoon(s.clients[a], now) && ValidUtf8(bytes)
    requires !(IsPrefix(COMMAND_NAMES[AUTH], bytes) && !s.clients[a].authed)
    ensures var r := Step(s, CommandMessage(a, bytes), now, token);
      && r.next == s
      && r.fanout == Recipients(s.clients, a, IsAuthed) && r.payload == bytes
      && (r.replies == [Write(a, ALREADY_AUTHORIZED)] <==> FirstMatch(COMMAND_NAMES, bytes).Some?)
      && (r.replies == [] <==> FirstMatch(COMMAND_NAMES, bytes).None?)
  {
  }

  /** Whatever the event, a broadcast goes only to other authenticated sessions, never to the
      sender, and leaves both registries as they were.  On the text path it also needs an
      authenticated sender; on the command path it does not. */
  lemma BroadcastOnlyToAuthedOthers(s: State, e: Event, now: nat, token: seq<byte>)
    requires Timely(s, now)
    ensures var r := Step(s, e, now, token);
      && (forall b :: b in r.fanout ==> b in s.clients && s.clients[b].authed && b != e.addr)
      && (r.fanout != {} ==> r.next == s && IsFrame(e) && r.payload == e.bytes)
      && (e.TextMessage? && r.fanout != {} ==> s.clients[e.addr].authed)
  {
  }

  /** A well-timed UTF-8 text frame from an authenticated session reaches exactly the other
      authenticated sessions, and changes nothing. */
  lemma TextRelayed(s: State, a: Addr, bytes: seq<byte>, now: nat, token: seq<byte>)
    requires Timely(s, now) && a in s.clients && s.clients[a].authed
    requires !TooSoon(s.clients[a], now) && ValidUtf8(bytes)
    ensures var r := Step(s, TextMessage(a, bytes), now, token);
      r == Effect(s, [], Recipients(s.clients, a, IsAuthed), bytes)
  {
  }

  /** The ban registry gains or rewrites a record only for the IP of a frame's author whose
      strike count has just reached the limit, and then with the time of that frame; the only
      record ever dropped is that of an IP admitted on connect. */
  lemma BansChangeOnlyAtStrikeOut(s: State, e: Event, now: nat, token: seq<byte>)
    requires Timely(s, now)
    ensures var r := Step(s, e, now, token);
      && (forall ip :: ip in r.next.bans && !(ip in s.bans && r.next.bans[ip] == s.bans[ip]) ==>
            && r.next.bans[ip] == now && IsFrame(e) && e.addr.ip == ip
            && e.addr in r.next.clients && r.next.clients[e.addr].strikeCount >= STRIKE_LIMIT)
      && (forall ip :: ip in s.bans && ip !in r.next.bans ==>
            e.Connected? && e.addr.ip == ip && e.addr in r.next.clients)
  {
  }

  // ------------------------------------------------------------------ properties of runs

  /** Between two events, a session changes only in `strike_count` (which only grows) and
      `authed` (which only becomes true); a reconnect from the same address is the only way it
      starts afresh. */
  predicate Successor(c: Client, d: Client) {
    d.lastMessage == c.lastMessage && d.strikeCount >= c.strikeCount && (c.authed ==> d.authed)
  }

  /** Every session of `t` was a session of `s`, and a successor of it. */
  predicate Preserves(s: State, t: State) {
    forall b :: b in t.clients ==> b in s.clients && Successor(s.clients[b], t.clients[b])
  }

  lemma AuthorSuccessor(s: State, a: Addr, bytes: seq<byte>, now: nat, token: seq<byte>)
    requires a in s.clients
    ensures Preserves(s, Strike(s, a, now).next)
    ensures Preserves(s, Admit(s, a).next) && Preserves(s, Eject(s, a).next)
    ensures Preserves(s, Dispatch(s, a, bytes, token).next)
  {
  }

  lemma FrameSuccessor(s: State, a: Addr, bytes: seq<byte>, now: nat, token: seq<byte>)
    requires Timely(s, now)
    ensures Preserves(s, OnText(s, a, bytes, now, token).next)
    ensures Preserves(s, OnCommand(s, a, bytes, now, token).next)
  {
    if a in s.clients {
      AuthorSuccessor(s, a, bytes, now, token);
    } else {
      assert OnText(s, a, bytes, now, token).next == s && OnCommand(s, a, bytes, now, token).next == s;
    }
  }

  lemma StepSuccessor(s: State, e: Event, now: nat, token: seq<byte>, b: Addr)
    requires Timely(s, now) && e != Connected(b)
    requires b in Step(s, e, now, token).next.clients
    ensures b in s.clients && Successor(s.clients[b], Step(s, e, now, token).next.clients[b])
  {
    match e
    case Connected(a) =>
    case Disconnected(a) =>
    case TextMessage(a, bytes) => FrameSuccessor(s, a, bytes, now, token);
    case CommandMessage(a, bytes) => FrameSuccessor(s, a, bytes, now, token);
  }

  /** Over any run without a reconnect from `b`, a session registered at the end was
      registered at the start, with the same `last_message`: the rate window is measured from
      the moment of connection, not from the last accepted frame.  Strikes never decrease and
      authentication is never withdrawn. */
  lemma {:induction false} SessionHistory(s: State, evs: seq<Timed>, token: seq<byte>, b: Addr)
    requires Chronological(evs) && (evs != [] ==> Timely(s, evs[0].at))
    requires forall i :: 0 <= i < |evs| ==> evs[i].event != Connected(b)
    requires b in Run(s, evs, token).clients
    ensures b in s.clients && Successor(s.clients[b], Run(s, evs, token).clients[b])
    decreases |evs|
  {
    if evs != [] {
      var s' := Step(s, evs[0].event, evs[0].at, token).next;
      if |evs| > 1 { StepKeepsTimely(s, evs[0].event, evs[0].at, token, evs[1].at); }
      assert Run(s, evs, token) == Run(s', evs[1..], token);
      SessionHistory(s', evs[1..], token, b);
      StepSuccessor(s, evs[0].event, evs[0].at, token, b);
    }
  }

  predicate FrameFrom(e: Event, a: Addr) { IsFrame(e) && e.addr == a }

  /** All of `evs` are frames from `a` inside the rate window that opened at `since`. */
  predicate Burst(evs: seq<Timed>, a: Addr, since: nat) {
    forall i :: 0 <= i < |evs| ==> FrameFrom(evs[i].event, a) && evs[i].at < since + MESSAGE_RATE
  }

  /** The first frame of a burst is a strike, and the rest of the run starts from there. */
  lemma BurstHead(s: State, a: Addr, evs: seq<Timed>, token: seq<byte>) returns (s': State)
    requires Chronological(evs) && evs != [] && Timely(s, evs[0].at)
    requires a in s.clients && Burst(evs, a, s.clients[a].lastMessage)
    ensures s' == Strike(s, a, evs[0].at).next
    ensures a in s'.clients && Burst(evs[1..], a, s'.clients[a].lastMessage)
    ensures Chronological(evs[1..]) && (|evs| > 1 ==> Timely(s', evs[1].at))
    ensures Run(s, evs, token) == Run(s', evs[1..], token)
  {
    assert FrameFrom(evs[0].event, a) && TooSoon(s.clients[a], evs[0].at);
    s' := Step(s, evs[0].event, evs[0].at, token).next;
    if |evs| > 1 { StepKeepsTimely(s, evs[0].event, evs[0].at, token, evs[1].at); }
  }

  /** One strike at `first` followed by `n - 1` more, the last at `last`, add up to `n`
      strikes and, at the limit, a ban record from `last`. */
  lemma BurstCombine(s: State, s': State, r: State, a: Addr, n: nat, first: nat, last: nat)
    requires a in s.clients && s' == Strike(s, a, first).next && n >= 1 && (n == 1 ==> last == first)
    requires r.clients == s'.clients[a := s'.clients[a].(strikeCount := s'.clients[a].strikeCount + (n - 1))]
    requires r.bans == if n > 1 && s'.clients[a].strikeCount + (n - 1) >= STRIKE_LIMIT
                       then s'.bans[a.ip := last] else s'.bans
    ensures var c := s.clients[a];
      && r.clients == s.clients[a := c.(strikeCount := c.strikeCount + n)]
      && r.bans == if c.strikeCount + n >= STRIKE_LIMIT then s.bans[a.ip := last] else s.bans
  {
    var c := s.clients[a];
    assert s'.clients[a := s'.clients[a].(strikeCount := s'.clients[a].strikeCount + (n - 1))]
        == s.clients[a := c.(strikeCount := c.strikeCount + n)];
  }

  /** A burst of frames from one session, all inside the rate window of its connection,
      adds one strike per frame and touches no other session; the IP's ban record ends up
      holding the time of the last frame exactly when the count has reached the limit, and the
      session is still registered. */
  lemma {:induction false} BurstStrikes(s: State, a: Addr, evs: seq<Timed>, token: seq<byte>)
    requires Chronological(evs) && (evs != [] ==> Timely(s, evs[0].at))
    requires a in s.clients && Burst(evs, a, s.clients[a].lastMessage)
    ensures var r := Run(s, evs, token); var c := s.clients[a];
      && r.clients == s.clients[a := c.(strikeCount := c.strikeCount + |evs|)]
      && r.bans == if evs != [] && c.strikeCount + |evs| >= STRIKE_LIMIT
                   then s.bans[a.ip := evs[|evs| - 1].at] else s.bans
    decreases |evs|
  {
    if evs == [] {
      assert s.clients[a := s.clients[a]] == s.clients;
    } else {
      var s' := BurstHead(s, a, evs, token);
      BurstStrikes(s', a, evs[1..], token);
      assert |evs| > 1 ==> evs[1..][|evs[1..]| - 1] == evs[|evs| - 1];
      BurstCombine(s, s', Run(s', evs[1..], token), a, |evs|, evs[0].at, evs[|evs| - 1].at);
    }
  }

  /** "ABCD" and "WRONG". */
  const TOKEN_ABCD: seq<byte> := [0x41, 0x42, 0x43, 0x44]
  const TEXT_WRONG: seq<byte> := [0x57, 0x52, 0x4F, 0x4E, 0x47]

  /** Literal scenario, first half: with token "ABCD", A connects at time 0 and sends "ABCD"
      two seconds later; it is registered, then authenticated and welcomed. */
  lemma TokenScenarioAdmits(a: Addr)
    ensures Step(State(map[], map[]), Connected(a), 0, TOKEN_ABCD)
      == Quiet(State(map[a := Client(0, 0, false)], map[]))
    ensures Step(State(map[a := Client(0, 0, false)], map[]), TextMessage(a, TOKEN_ABCD), 2 * NANOS_PER_SEC, TOKEN_ABCD)
      == Effect(State(map[a := Client(0, 0, true)], map[]), [Write(a, WELCOME)], {}, [])
  {
    AsciiIsValid(TOKEN_ABCD);
    var s1 := State(map[a := Client(0, 0, false)], map[]);
    assert s1.clients[a := s1.clients[a].(authed := true)] == map[a := Client(0, 0, true)];
  }

  /** Second half: B connects as well, from an address of its own, and is registered beside
      A. */
  lemma TokenScenarioJoins(a: Addr, b: Addr)
    requires a != b
    ensures Step(State(map[a := Client(0, 0, true)], map[]), Connected(b), 2 * NANOS_PER_SEC, TOKEN_ABCD)
      == Quiet(State(map[a := Client(0, 0, true), b := Client(2 * NANOS_PER_SEC, 0, false)], map[]))
  {
    var bans: map<Ip, nat> := map[];
    assert bans - {b.ip} == bans;
  }

  /** B then sends "WRONG"; it is told the token is invalid, shut down and removed, and A's
      session is untouched. */
  lemma TokenScenarioEjects(a: Addr, b: Addr)
    requires a != b
    ensures var s2 := State(map[a := Client(0, 0, true)], map[]);
      var s3 := State(map[a := Client(0, 0, true), b := Client(2 * NANOS_PER_SEC, 0, false)], map[]);
      Step(s3, TextMessage(b, TEXT_WRONG), 4 * NANOS_PER_SEC, TOKEN_ABCD)
        == Effect(s2, [Write(b, INVALID_TOKEN), Shutdown(b)], {}, [])
  {
    AsciiIsValid(TEXT_WRONG);
    var s2 := State(map[a := Client(0, 0, true)], map[]);
    var s3 := State(map[a := Client(0, 0, true), b := Client(2 * NANOS_PER_SEC, 0, false)], map[]);
    assert TEXT_WRONG != TOKEN_ABCD by { assert TEXT_WRONG[0] != TOKEN_ABCD[0]; }
    assert s3.clients - {b} == s2.clients;
    assert !TooSoon(s3.clients[b], 4 * NANOS_PER_SEC);
  }

  // ------------------------------------------------------------------ set_nick_command

  datatype NickOutcome = NickOutcome(nick: seq<byte>, reply: seq<byte>)

  /** `prompt[0..16]` needs byte 16 to be a character boundary. */
  predicate CanCutAt16(prompt: seq<byte>) { |prompt| > 16 ==> !IsTail(prompt[16]) }

  /** The proposed nickname: the trimmed first 16 bytes of a longer prompt, or the trimmed
      prompt. */
  function NickCandidate(prompt: seq<byte>): (t: seq<byte>)
    ensures |t| <= 16 && LeadingSpace(t) == 0 && TrailingSpace(t) == 0
  {
    if |prompt| > 16 then Trim(prompt[..16]) else Trim(prompt)
  }

  /** `set_nick_command` (not reachable from the server's dispatch): an empty candidate, or
      one equal to the current nickname, is refused with a notice; otherwise it becomes the
      nickname and the change is reported. */
  function SetNickCommand(prompt: seq<byte>, nick: seq<byte>): (r: NickOutcome)
    requires ValidUtf8(prompt) && CanCutAt16(prompt)
    ensures r.nick == nick || r.nick == NickCandidate(prompt)
    ensures NickCandidate(prompt) == [] || NickCandidate(prompt) == nick ==>
      r == NickOutcome(nick, NICK_REJECTED)
    ensures r.nick != nick ==>
      && r.nick != [] && |r.nick| <= 16 && LeadingSpace(r.nick) == 0 && TrailingSpace(r.nick) == 0
      && r.reply == NICK_CHANGED_FROM + nick + NICK_TO + r.nick + CRLF
    ensures NickCandidate(prompt) != [] && NickCandidate(prompt) != nick ==>
      r == NickOutcome(NickCandidate(prompt),
                       NICK_CHANGED_FROM + nick + NICK_TO + NickCandidate(prompt) + CRLF)
  {
    var trimmed := NickCandidate(prompt);
    if trimmed == [] || trimmed == nick then NickOutcome(nick, NICK_REJECTED)
    else NickOutcome(trimmed, NICK_CHANGED_FROM + nick + NICK_TO + trimmed + CRLF)
  }

  /** Repeating a nickname change with the same prompt is refused as "same". */
  lemma SetNickRepeatRefused(prompt: seq<byte>, nick: seq<byte>)
    requires ValidUtf8(prompt) && CanCutAt16(prompt)
    ensures var r := SetNickCommand(prompt, nick);
      SetNickCommand(prompt, r.nick) == NickOutcome(r.nick, NICK_REJECTED)
  {
  }

  // ------------------------------------------------------------------ the reader thread

  /** One turn of the reader loop in `client`: end of stream or a read error sends
      `ClientDisconnected` and ends the reader; otherwise the control bytes are dropped and
      the frame is classified by its first byte.  An empty filtered frame makes `bytes[0..1]`
      panic, and a first byte that is not ASCII makes `from_utf8` fail; in both cases the
      reader ends without sending anything. */
  method ReadFrame(a: Addr, read: ReadResult) returns (step: ReaderStep<Event>)
    ensures read == ReadFailed || read == Received([]) ==> step == Hangup(Disconnected(a))
    ensures read.Received? && read.data != [] ==>
      var bytes := Printable(read.data);
      && (step == Die <==> bytes == [] || bytes[0] >= 0x80)
      && (step != Die ==> step.Forward? && IsFrame(step.event) && step.event.addr == a)
      && (step != Die ==> step.event.bytes == bytes && (step.event.CommandMessage? <==> bytes[0] == SLASH))
  {
    if read.ReadFailed? || read.data == [] {
      return Hangup(Disconnected(a));
    }
    var bytes := FilterControl(read.data);
    if |bytes| == 0 || bytes[0] >= 0x80 {
      return Die;
    }
    if bytes[0] == SLASH {
      step := Forward(CommandMessage(a, bytes));
    } else {
      step := Forward(TextMessage(a, bytes));
    }
  }

  // ------------------------------------------------------------------ the event loop

  /** The server thread: its registries, its token, and the log of what it did to sockets. */
  class Server {
    const token: seq<byte>
    var clients: map<Addr, Client>
    var bans: map<Ip, nat>
    var out: seq<Output>

    function Registries(): State
      reads this
    {
      State(clients, bans)
    }

    constructor (token: seq<byte>)
      ensures this.token == token && clients == map[] && bans == map[] && out == []
    {
      this.token := token;
      clients := map[];
      bans := map[];
      out := [];
    }

    method Connected(a: Addr, now: nat)
      requires Timely(Registries(), now)
      modifies this
      ensures Registries() == OnConnected(old(Registries()), a, now).next
      ensures Emitted(OnConnected(old(Registries()), a, now), old(out), out)
    {
      var bannedAt: nat;
      var banned := a.ip in bans;
      if banned {
        bannedAt := bans[a.ip];
        bans := bans - {a.ip};
        if now - bannedAt >= BAN_LIMIT {
          banned := false;
        }
      }
      if banned {
        bans := bans[a.ip := bannedAt];
        out := out + [BanNotice(a, BAN_LIMIT - (now - bannedAt)), Shutdown(a)];
        assert bans == old(bans);
      } else {
        clients := clients[a := Client(now, 0, false)];
      }
    }

    method Disconnected(a: Addr)
      modifies this
      ensures Registries() == OnDisconnected(old(Registries()), a).next
      ensures Emitted(OnDisconnected(old(Registries()), a), old(out), out)
    {
      clients := clients - {a};
    }

    /** One more strike for the author, then the ban check. */
    method RecordStrike(a: Addr, now: nat)
      requires a in clients
      modifies this
      ensures Registries() == Strike(old(Registries()), a, now).next
      ensures Emitted(Strike(old(Registries()), a, now), old(out), out)
    {
      var author := clients[a];
      author := author.(strikeCount := author.strikeCount + 1);
      clients := clients[a := author];
      if author.strikeCount >= STRIKE_LIMIT {
        bans := bans[a.ip := now];
        out := out + [Write(a, BANNED), Shutdown(a)];
      }
    }

    /** Relays `bytes` from `a` to the other authenticated sessions. */
    method RelayFrame(a: Addr, bytes: seq<byte>)
      modifies this
      ensures Registries() == old(Registries())
      ensures Emitted(Relay(old(Registries()), a, bytes), old(out), out)
    {
      var w := Broadcast(clients, a, IsAuthed, bytes);
      out := out + w;
    }

    method AdmitAuthor(a: Addr)
      requires a in clients
      modifies this
      ensures Registries() == Admit(old(Registries()), a).next
      ensures Emitted(Admit(old(Registries()), a), old(out), out)
    {
      clients := clients[a := clients[a].(authed := true)];
      out := out + [Write(a, WELCOME)];
    }

    method EjectAuthor(a: Addr)
      modifies this
      ensures Registries() == Eject(old(Registries()), a).next
      ensures Emitted(Eject(old(Registries()), a), old(out), out)
    {
      out := out + [Write(a, INVALID_TOKEN), Shutdown(a)];
      clients := clients - {a};
    }

    method TextMessage(a: Addr, bytes: seq<byte>, now: nat)
      requires Timely(Registries(), now)
      modifies this
      ensures Registries() == OnText(old(Registries()), a, bytes, now, token).next
      ensures Emitted(OnText(old(Registries()), a, bytes, now, token), old(out), out)
    {
      if a in clients {
        var author := clients[a];
        if now - author.lastMessage >= MESSAGE_RATE {
          if ValidUtf8(bytes) {
            if author.authed {
              RelayFrame(a, bytes);
            } else if bytes == token {
              AdmitAuthor(a);
            } else {
              EjectAuthor(a);
            }
          } else {
            RecordStrike(a, now);
          }
        } else {
          RecordStrike(a, now);
        }
      }
    }

    /** The `for command in COMMANDS` dispatch of a well-timed UTF-8 command frame. */
    method RunCommand(a: Addr, bytes: seq<byte>)
      requires a in clients
      modifies this
      ensures Registries() == Dispatch(old(Registries()), a, bytes, token).next
      ensures Emitted(Dispatch(old(Registries()), a, bytes, token), old(out), out)
    {
      var found := FindCommand(COMMAND_NAMES, bytes);
      if found.Some? {
        var k := found.value;
        if k == AUTH && !clients[a].authed {
          var userToken := TrimStart(bytes[|COMMAND_NAMES[k]|..]);
          ghost var s0 := Registries();
          ghost var out0 := out;
          if token == userToken {
            AdmitAuthor(a);
          } else {
            EjectAuthor(a);
          }
          ghost var e := if token == userToken then Admit(s0, a) else Eject(s0, a);
          // auth_command writes its argument back to the author
          EmittedThenReply(e, out0, out, Write(a, userToken));
          out := out + [Write(a, userToken)];
        } else {
          ghost var out0 := out;
          out := out + [Write(a, ALREADY_AUTHORIZED)];
          RelayFrame(a, bytes);
          ReplyThenEmitted(Relay(Registries(), a, bytes), out0, out, Write(a, ALREADY_AUTHORIZED));
        }
      } else {
        RelayFrame(a, bytes);
      }
    }

    method CommandMessage(a: Addr, bytes: seq<byte>, now: nat)
      requires Timely(Registries(), now)
      modifies this
      ensures Registries() == OnCommand(old(Registries()), a, bytes, now, token).next
      ensures Emitted(OnCommand(old(Registries()), a, bytes, now, token), old(out), out)
    {
      if a in clients {
        var author := clients[a];
        if now - author.lastMessage >= MESSAGE_RATE {
          if ValidUtf8(bytes) {
            RunCommand(a, bytes);
          } else {
            RecordStrike(a, now);
          }
        } else {
          RecordStrike(a, now);
        }
      }
    }

    /** One iteration of the server loop. */
    method Handle(e: Event, now: nat)
      requires Timely(Registries(), now)
      modifies this
      ensures Registries() == Step(old(Registries()), e, now, token).next
      ensures Emitted(Step(old(Registries()), e, now, token), old(out), out)
    {
      match e
      case Connected(a) => Connected(a, now);
      case Disconnected(a) => Disconnected(a);
      case TextMessage(a, bytes) => TextMessage(a, bytes, now);
      case CommandMessage(a, bytes) => CommandMessage(a, bytes, now);
    }

    /** The server loop over a finite prefix of the event queue. */
    method Serve(evs: seq<Timed>)
      requires Chronological(evs) && (evs != [] ==> Timely(Registries(), evs[0].at))
      modifies this
      ensures Registries() == Run(old(Registries()), evs, token)
      ensures old(out) <= out
    {
      var i := 0;
      while i < |evs|
        invariant 0 <= i <= |evs|
        invariant Chronological(evs[i..]) && (i < |evs| ==> Timely(Registries(), evs[i].at))
        invariant Run(old(Registries()), evs, token) == Run(Registries(), evs[i..], token)
        invariant old(out) <= out
        decreases |evs| - i
      {
        ghost var before := Registries();
        ghost var outBefore := out;
        Handle(evs[i].event, evs[i].at);
        if i + 1 < |evs| {
          StepKeepsTimely(before, evs[i].event, evs[i].at, token, evs[i + 1].at);
        }
        assert evs[i..][1..] == evs[i + 1..];
        assert outBefore <= out by { assert out[..|outBefore|] == outBefore; }
        i := i + 1;
      }
    }
  }
}
