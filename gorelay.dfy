/** The Go server (main.go).  Its session authority differs from the Rust servers: the ban
    record is only looked up on connect and deleted once it has expired, an accepted message
    resets the strike count and restarts the rate window, a ban needs strictly more than
    `StrikeLimit` strikes and closes the connection without a notice, and a message from an
    unregistered connection closes that connection.  The clock is not required to be
    monotonic here: Go compares signed durations and does not panic. */
module GoRelay {
  import opened Utf8
  import opened Wire

  /** Time is a count of nanoseconds; `BanLimit` and `MessageRate` are in seconds. */
  const NANOS_PER_SEC: nat := 1_000_000_000
  const BAN_LIMIT: nat := 10 * NANOS_PER_SEC
  const MESSAGE_RATE: nat := NANOS_PER_SEC
  const STRIKE_LIMIT: int := 10

  datatype Client = Client(lastMessage: nat, strikeCount: int)

  /** `clients` is keyed by `RemoteAddr().String()`, `bannedMfs` by `IP.String()`. */
  datatype State = State(clients: map<Addr, Client>, bans: map<Ip, nat>)

  datatype Event =
    | ClientConnected(addr: Addr)
    | ClientDisconnected(addr: Addr)
    | NewMessage(addr: Addr, text: seq<byte>)

  /** `now.Sub(t).Seconds()`, kept as a signed count of nanoseconds. */
  function Elapsed(now: nat, t: nat): int { now - t }

  predicate Banned(bans: map<Ip, nat>, ip: Ip, now: nat) {
    ip in bans && Elapsed(now, bans[ip]) < BAN_LIMIT
  }

  /** The rate check and UTF-8 check that an accepted message passes. */
  predicate Accepted(c: Client, text: seq<byte>, now: nat) {
    Elapsed(now, c.lastMessage) >= MESSAGE_RATE && ValidUtf8(text)
  }

  // ------------------------------------------------------------------ one event

  /** `ClientConnected`: an expired record is deleted and the client admitted; a record in
      force is left alone, and the connection is told and closed. */
  function OnConnected(s: State, a: Addr, now: nat): Effect<State> {
    if Banned(s.bans, a.ip, now) then
      Effect(s, [BanNotice(a, BAN_LIMIT - Elapsed(now, s.bans[a.ip])), Close(a)], {}, [])
    else
      Quiet(State(s.clients[a := Client(now, 0)], s.bans - {a.ip}))
  }

  function OnDisconnected(s: State, a: Addr): Effect<State> {
    Quiet(State(s.clients - {a}, s.bans))
  }

  /** `author.StrikeCount++`, and above the limit a ban from `now` and `Close`. */
  function Strike(s: State, a: Addr, now: nat): Effect<State>
    requires a in s.clients
  {
    var c := s.clients[a];
    var c' := c.(strikeCount := c.strikeCount + 1);
    if c'.strikeCount > STRIKE_LIMIT then
      Effect(State(s.clients[a := c'], s.bans[a.ip := now]), [Close(a)], {}, [])
    else
      Quiet(State(s.clients[a := c'], s.bans))
  }

  /** `NewMessage`. */
  function OnMessage(s: State, a: Addr, text: seq<byte>, now: nat): Effect<State> {
    if a !in s.clients then Effect(s, [Close(a)], {}, [])
    else if Accepted(s.clients[a], text, now) then
      Effect(State(s.clients[a := Client(now, 0)], s.bans), [], Recipients(s.clients, a, Anyone), text)
    else Strike(s, a, now)
  }

  function Step(s: State, e: Event, now: nat): Effect<State> {
    match e
    case ClientConnected(a) => OnConnected(s, a, now)
    case ClientDisconnected(a) => OnDisconnected(s, a)
    case NewMessage(a, text) => OnMessage(s, a, text, now)
  }

  datatype Timed = Timed(at: nat, event: Event)

  function Run(s: State, evs: seq<Timed>): State
    decreases |evs|
  {
    if evs == [] then s else Run(Step(s, evs[0].event, evs[0].at).next, evs[1..])
  }

  // ------------------------------------------------------------------ properties

  /** Connect: a record in force is left as it is and no client is added; otherwise the
      record, if any, is deleted and a fresh client registered. */
  lemma ConnectChecksBan(s: State, a: Addr, now: nat)
    ensures var r := Step(s, ClientConnected(a), now);
      && r.fanout == {}
      && (Banned(s.bans, a.ip, now) ==>
            r.next == s && r.replies == [BanNotice(a, BAN_LIMIT - Elapsed(now, s.bans[a.ip])), Close(a)])
      && (!Banned(s.bans, a.ip, now) ==>
            && r.next.clients == s.clients[a := Client(now, 0)]
            && r.next.bans == s.bans - {a.ip} && r.replies == [])
  {
  }

  /** Disconnect deletes the full-address key and nothing else, and is idempotent. */
  lemma DisconnectDeletesKey(s: State, a: Addr, now: nat)
    ensures var r := Step(s, ClientDisconnected(a), now);
      && r.replies == [] && r.fanout == {} && r.next.bans == s.bans
      && r.next.clients.Keys == s.clients.Keys - {a}
      && (forall b :: b in r.next.clients ==> r.next.clients[b] == s.clients[b])
      && Step(r.next, ClientDisconnected(a), now).next == r.next
  {
  }

  /** A message from an unregistered connection closes it and changes neither map. */
  lemma UnknownSenderClosed(s: State, a: Addr, text: seq<byte>, now: nat)
    requires a !in s.clients
    ensures Step(s, NewMessage(a, text), now) == Effect(s, [Close(a)], {}, [])
  {
  }

  /** An accepted message clears the strikes, restarts the window at `now`, and reaches
      every other client verbatim; the ban map is unchanged. */
  lemma AcceptedResets(s: State, a: Addr, text: seq<byte>, now: nat)
    requires a in s.clients && Accepted(s.clients[a], text, now)
    ensures var r := Step(s, NewMessage(a, text), now);
      && r.next.clients == s.clients[a := Client(now, 0)]
      && r.next.bans == s.bans && r.replies == []
      && r.fanout == s.clients.Keys - {a} && r.payload == text
  {
  }

  /** A rejected message adds one strike and keeps the window; the IP is banned at `now` and
      the connection closed exactly when the count exceeds the limit; the client stays. */
  lemma RejectedStrikes(s: State, a: Addr, text: seq<byte>, now: nat)
    requires a in s.clients && !Accepted(s.clients[a], text, now)
    ensures var r := Step(s, NewMessage(a, text), now); var c := s.clients[a];
      && r.next.clients == s.clients[a := c.(strikeCount := c.strikeCount + 1)]
      && r.fanout == {}
      && (c.strikeCount + 1 > STRIKE_LIMIT ==> r.next.bans == s.bans[a.ip := now] && r.replies == [Close(a)])
      && (c.strikeCount + 1 <= STRIKE_LIMIT ==> r.next.bans == s.bans && r.replies == [])
  {
  }

  /** Messages from `a`, each arriving less than `MessageRate` after `since`, at any times
      and in any order. */
  predicate Burst(evs: seq<Timed>, a: Addr, since: nat) {
    forall i :: 0 <= i < |evs| ==>
      && evs[i].event.NewMessage? && evs[i].event.addr == a
      && Elapsed(evs[i].at, since) < MESSAGE_RATE
  }

  /** The first message of a burst is a strike, which keeps the window where it was. */
  lemma BurstHead(s: State, a: Addr, evs: seq<Timed>) returns (s': State)
    requires evs != [] && a in s.clients && Burst(evs, a, s.clients[a].lastMessage)
    ensures s' == Strike(s, a, evs[0].at).next
    ensures a in s'.clients && Burst(evs[1..], a, s'.clients[a].lastMessage)
    ensures Run(s, evs) == Run(s', evs[1..])
  {
    assert !Accepted(s.clients[a], evs[0].event.text, evs[0].at);
    s' := Step(s, evs[0].event, evs[0].at).next;
  }

  /** A rejected message never moves `LastMessage`, so every message of a burst inside the
      rate window is a strike, whatever its time: the count grows by one per message and
      nothing else about the session changes.  The IP's ban record ends up holding the time
      of the last message exactly when the count has gone above `StrikeLimit`; while it stays
      within the limit nobody is banned.  The session stays registered throughout. */
  lemma {:induction false} BurstStrikes(s: State, a: Addr, evs: seq<Timed>)
    requires a in s.clients && Burst(evs, a, s.clients[a].lastMessage)
    ensures var r := Run(s, evs); var c := s.clients[a];
      && r.clients == s.clients[a := c.(strikeCount := c.strikeCount + |evs|)]
      && r.bans == if evs != [] && c.strikeCount + |evs| > STRIKE_LIMIT
                   then s.bans[a.ip := evs[|evs| - 1].at] else s.bans
    decreases |evs|
  {
    var c := s.clients[a];
    if evs == [] {
      assert s.clients[a := c.(strikeCount := c.strikeCount)] == s.clients;
    } else {
      var s' := BurstHead(s, a, evs);
      BurstStrikes(s', a, evs[1..]);
      assert s'.clients[a := s'.clients[a].(strikeCount := s'.clients[a].strikeCount + |evs[1..]|)]
          == s.clients[a := c.(strikeCount := c.strikeCount + |evs|)];
    }
  }

  // ------------------------------------------------------------------ the event loop

  class Server {
    var clients: map<Addr, Client>
    var bannedMfs: map<Ip, nat>
    var out: seq<Output>

    function Registries(): State
      reads this
    {
      State(clients, bannedMfs)
    }

    constructor ()
      ensures clients == map[] && bannedMfs == map[] && out == []
    {
      clients := map[];
      bannedMfs := map[];
      out := [];
    }

    method ClientConnected(a: Addr, now: nat)
      modifies this
      ensures Registries() == OnConnected(old(Registries()), a, now).next
      ensures Emitted(OnConnected(old(Registries()), a, now), old(out), out)
    {
      var banned := a.ip in bannedMfs;
      var bannedAt: nat := if banned then bannedMfs[a.ip] else 0;
      if banned {
        if Elapsed(now, bannedAt) >= BAN_LIMIT {
          bannedMfs := bannedMfs - {a.ip};
          banned := false;
        }
      }
      if !banned {
        clients := clients[a := Client(now, 0)];
        assert a.ip !in old(bannedMfs) ==> bannedMfs == old(bannedMfs) - {a.ip};
      } else {
        out := out + [BanNotice(a, BAN_LIMIT - Elapsed(now, bannedAt)), Close(a)];
      }
    }

    method ClientDisconnected(a: Addr)
      modifies this
      ensures Registries() == OnDisconnected(old(Registries()), a).next
      ensures Emitted(OnDisconnected(old(Registries()), a), old(out), out)
    {
      clients := clients - {a};
    }

    method RecordStrike(a: Addr, now: nat)
      requires a in clients
      modifies this
      ensures Registries() == Strike(old(Registries()), a, now).next
      ensures Emitted(Strike(old(Registries()), a, now), old(out), out)
    {
      var author := clients[a];
      author := author.(strikeCount := author.strikeCount + 1);
      clients := clients[a := author];
      if author.strikeCount > STRIKE_LIMIT {
        bannedMfs := bannedMfs[a.ip := now];
        out := out + [Close(a)];
      }
    }

    method NewMessage(a: Addr, text: seq<byte>, now: nat)
      modifies this
      ensures Registries() == OnMessage(old(Registries()), a, text, now).next
      ensures Emitted(OnMessage(old(Registries()), a, text, now), old(out), out)
    {
      if a in clients {
        var author := clients[a];
        if Elapsed(now, author.lastMessage) >= MESSAGE_RATE {
          if ValidUtf8(text) {
            var w := Broadcast(clients, a, Anyone, text);
            clients := clients[a := author.(strikeCount := 0, lastMessage := now)];
            out := out + w;
          } else {
            RecordStrike(a, now);
          }
        } else {
          RecordStrike(a, now);
        }
      } else {
        out := out + [Close(a)];
      }
    }

    method Handle(e: Event, now: nat)
      modifies this
      ensures Registries() == Step(old(Registries()), e, now).next
      ensures Emitted(Step(old(Registries()), e, now), old(out), out)
    {
      match e
      case ClientConnected(a) => ClientConnected(a, now);
      case ClientDisconnected(a) => ClientDisconnected(a);
      case NewMessage(a, text) => NewMessage(a, text, now);
    }

    method Serve(evs: seq<Timed>)
      modifies this
      ensures Registries() == Run(old(Registries()), evs)
      ensures old(out) <= out
    {
      var i := 0;
      while i < |evs|
        invariant 0 <= i <= |evs|
        invariant Run(old(Registries()), evs) == Run(Registries(), evs[i..])
        invariant old(out) <= out
        decreases |evs| - i
      {
        ghost var outBefore := out;
        Handle(evs[i].event, evs[i].at);
        assert evs[i..][1..] == evs[i + 1..];
        assert outBefore <= out by { assert out[..|outBefore|] == outBefore; }
        i := i + 1;
      }
    }
  }
}
