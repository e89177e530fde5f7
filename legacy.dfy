/** The older Go server (legacy.go): the Go session authority of main.go with a name per
    client.  The reader asks for a name first and cleans it; the name travels with every
    event, and an accepted message is relayed as "name: text".  The constants, the clock and
    the ban test are those of main.go, declared identically there. */
module Legacy {
  import opened Utf8
  import opened Wire
  import GoRelay

  /** "anon" */
  const ANON: seq<byte> := [0x61, 0x6E, 0x6F, 0x6E]
  /** ": " */
  const SEPARATOR: seq<byte> := [0x3A, 0x20]

  // ------------------------------------------------------------------ cleanName

  /** `cleanName`: the name with surrounding whitespace removed, or "anon" when that is
      empty or not UTF-8. */
  function CleanName(name: seq<byte>): (r: seq<byte>)
    ensures r != [] && ValidUtf8(r)
    ensures LeadingSpace(r) == 0 && TrailingSpace(r) == 0
  {
    var trimmed := Trim(name);
    if ValidUtf8(trimmed) && trimmed != [] then trimmed
    else
      AsciiIsValid(ANON);
      ANON
  }

  /** Both outcomes of `cleanName`: the trimmed name is kept exactly when it is non-empty
      UTF-8. */
  lemma CleanNameChoice(name: seq<byte>)
    ensures CleanName(name) == Trim(name) <==> ValidUtf8(Trim(name)) && Trim(name) != []
    ensures CleanName(name) != Trim(name) ==> CleanName(name) == ANON
  {
  }

  /** A cleaned name is clean. */
  lemma CleanNameIdempotent(name: seq<byte>)
    ensures CleanName(CleanName(name)) == CleanName(name)
  {
    TrimmedIsFixed(CleanName(name));
  }

  // ------------------------------------------------------------------ the session authority

  datatype Client = Client(name: seq<byte>, lastMessage: nat, strikeCount: int)

  datatype State = State(clients: map<Addr, Client>, bans: map<Ip, nat>)

  /** The events; `name` is the cleaned name the reader attached. */
  datatype Event =
    | ClientConnected(addr: Addr, name: seq<byte>)
    | ClientDisconnected(addr: Addr)
    | NewMessage(addr: Addr, name: seq<byte>, text: seq<byte>)

  /** The relayed payload: the name, a colon and a space, then the text. */
  function Payload(name: seq<byte>, text: seq<byte>): seq<byte> {
    name + SEPARATOR + text
  }

  /** What is relayed is well-formed UTF-8: the name is cleaned, ": " is ASCII, and only
      well-formed text is accepted. */
  lemma RelayedPayloadIsUtf8(raw: seq<byte>, text: seq<byte>)
    requires ValidUtf8(text)
    ensures ValidUtf8(Payload(CleanName(raw), text))
  {
    AsciiIsValid(SEPARATOR);
    ValidConcat(CleanName(raw), SEPARATOR);
    ValidConcat(CleanName(raw) + SEPARATOR, text);
  }

  predicate Accepted(c: Client, text: seq<byte>, now: nat) {
    GoRelay.Elapsed(now, c.lastMessage) >= GoRelay.MESSAGE_RATE && ValidUtf8(text)
  }

  function OnConnected(s: State, a: Addr, name: seq<byte>, now: nat): Effect<State> {
    if GoRelay.Banned(s.bans, a.ip, now) then
      Effect(s, [BanNotice(a, GoRelay.BAN_LIMIT - GoRelay.Elapsed(now, s.bans[a.ip])), Close(a)], {}, [])
    else
      Quiet(State(s.clients[a := Client(name, now, 0)], s.bans - {a.ip}))
  }

  function OnDisconnected(s: State, a: Addr): Effect<State> {
    Quiet(State(s.clients - {a}, s.bans))
  }

  function Strike(s: State, a: Addr, now: nat): Effect<State>
    requires a in s.clients
  {
    var c := s.clients[a];
    var c' := c.(strikeCount := c.strikeCount + 1);
    if c'.strikeCount > GoRelay.STRIKE_LIMIT then
      Effect(State(s.clients[a := c'], s.bans[a.ip := now]), [Close(a)], {}, [])
    else
      Quiet(State(s.clients[a := c'], s.bans))
  }

  function OnMessage(s: State, a: Addr, name: seq<byte>, text: seq<byte>, now: nat): Effect<State> {
    if a !in s.clients then Effect(s, [Close(a)], {}, [])
    else if Accepted(s.clients[a], text, now) then
      var c := s.clients[a];
      Effect(State(s.clients[a := c.(strikeCount := 0, lastMessage := now)], s.bans), [],
             Recipients(s.clients, a, Anyone), Payload(name, text))
    else Strike(s, a, now)
  }

  function Step(s: State, e: Event, now: nat): Effect<State> {
    match e
    case ClientConnected(a, name) => OnConnected(s, a, name, now)
    case ClientDisconnected(a) => OnDisconnected(s, a)
    case NewMessage(a, name, text) => OnMessage(s, a, name, text, now)
  }

  // ------------------------------------------------------------------ properties

  /** Connect: an expired or absent record gives a fresh client carrying its name, and the
      record is deleted; a record in force rejects and closes the connection. */
  lemma ConnectChecksBan(s: State, a: Addr, name: seq<byte>, now: nat)
    ensures var r := Step(s, ClientConnected(a, name), now);
      && r.fanout == {}
      && (GoRelay.Banned(s.bans, a.ip, now) ==>
            && r.next == s
            && r.replies == [BanNotice(a, GoRelay.BAN_LIMIT - GoRelay.Elapsed(now, s.bans[a.ip])), Close(a)])
      && (!GoRelay.Banned(s.bans, a.ip, now) ==>
            && r.next.clients == s.clients[a := Client(name, now, 0)]
            && r.next.bans == s.bans - {a.ip} && r.replies == [])
  {
  }

  /** Disconnect deletes that key only and is idempotent; a message from an unregistered
      connection closes it and changes no map. */
  lemma DisconnectAndUnknown(s: State, a: Addr, name: seq<byte>, text: seq<byte>, now: nat)
    ensures var r := Step(s, ClientDisconnected(a), now);
      && r.replies == [] && r.fanout == {} && r.next.bans == s.bans
      && r.next.clients.Keys == s.clients.Keys - {a}
      && (forall b :: b in r.next.clients ==> r.next.clients[b] == s.clients[b])
      && Step(r.next, ClientDisconnected(a), now).next == r.next
    ensures a !in s.clients ==> Step(s, NewMessage(a, name, text), now) == Effect(s, [Close(a)], {}, [])
  {
  }

  /** An accepted message clears the strikes and restarts the window, keeps the stored
      name, and sends "name: text" to every other client. */
  lemma AcceptedRelaysNamed(s: State, a: Addr, name: seq<byte>, text: seq<byte>, now: nat)
    requires a in s.clients && Accepted(s.clients[a], text, now)
    ensures var r := Step(s, NewMessage(a, name, text), now);
      && r.next.clients == s.clients[a := Client(s.clients[a].name, now, 0)]
      && r.next.bans == s.bans && r.replies == []
      && r.fanout == s.clients.Keys - {a}
      && r.payload == Payload(name, text)
  {
  }

  /** A rejected message adds one strike; above the limit the IP is banned at `now` and the
      connection closed; the client stays registered. */
  lemma RejectedStrikes(s: State, a: Addr, name: seq<byte>, text: seq<byte>, now: nat)
    requires a in s.clients && !Accepted(s.clients[a], text, now)
    ensures var r := Step(s, NewMessage(a, name, text), now); var c := s.clients[a];
      && r.next.clients == s.clients[a := c.(strikeCount := c.strikeCount + 1)]
      && r.fanout == {}
      && (c.strikeCount + 1 > GoRelay.STRIKE_LIMIT ==>
            r.next.bans == s.bans[a.ip := now] && r.replies == [Close(a)])
      && (c.strikeCount + 1 <= GoRelay.STRIKE_LIMIT ==> r.next.bans == s.bans && r.replies == [])
  {
  }

  // ------------------------------------------------------------------ the event loop

  class Server {
    var clients: map<Addr, Client>
    var bannedMfs: map<Ip, nat>
    var out: seq<Output>

    function Registries(): State
      reads this
    {
      State(clients, bannedMfs)
    }

    constructor ()
      ensures clients == map[] && bannedMfs == map[] && out == []
    {
      clients := map[];
      bannedMfs := map[];
      out := [];
    }

    method ClientConnected(a: Addr, name: seq<byte>, now: nat)
      modifies this
      ensures Registries() == OnConnected(old(Registries()), a, name, now).next
      ensures Emitted(OnConnected(old(Registries()), a, name, now), old(out), out)
    {
      var banned := a.ip in bannedMfs;
      var bannedAt: nat := if banned then bannedMfs[a.ip] else 0;
      if banned {
        if GoRelay.Elapsed(now, bannedAt) >= GoRelay.BAN_LIMIT {
          bannedMfs := bannedMfs - {a.ip};
          banned := false;
        }
      }
      if !banned {
        clients := clients[a := Client(name, now, 0)];
        assert a.ip !in old(bannedMfs) ==> bannedMfs == old(bannedMfs) - {a.ip};
      } else {
        out := out + [BanNotice(a, GoRelay.BAN_LIMIT - GoRelay.Elapsed(now, bannedAt)), Close(a)];
      }
    }

    method ClientDisconnected(a: Addr)
      modifies this
      ensures Registries() == OnDisconnected(old(Registries()), a).next
      ensures Emitted(OnDisconnected(old(Registries()), a), old(out), out)
    {
      clients := clients - {a};
    }

    method RecordStrike(a: Addr, now: nat)
      requires a in clients
      modifies this
      ensures Registries() == Strike(old(Registries()), a, now).next
      ensures Emitted(Strike(old(Registries()), a, now), old(out), out)
    {
      var author := clients[a];
      author := author.(strikeCount := author.strikeCount + 1);
      clients := clients[a := author];
      if author.strikeCount > GoRelay.STRIKE_LIMIT {
        bannedMfs := bannedMfs[a.ip := now];
        out := out + [Close(a)];
      }
    }

    method NewMessage(a: Addr, name: seq<byte>, text: seq<byte>, now: nat)
      modifies this
      ensures Registries() == OnMessage(old(Registries()), a, name, text, now).next
      ensures Emitted(OnMessage(old(Registries()), a, name, text, now), old(out), out)
    {
      if a in clients {
        var author := clients[a];
        if GoRelay.Elapsed(now, author.lastMessage) >= GoRelay.MESSAGE_RATE {
          if ValidUtf8(text) {
            var payload := name + SEPARATOR + text;
            var w := Broadcast(clients, a, Anyone, payload);
            clients := clients[a := author.(strikeCount := 0, lastMessage := now)];
            out := out + w;
          } else {
            RecordStrike(a, now);
          }
        } else {
          RecordStrike(a, now);
        }
      } else {
        out := out + [Close(a)];
      }
    }

    method Handle(e: Event, now: nat)
      modifies this
      ensures Registries() == Step(old(Registries()), e, now).next
      ensures Emitted(Step(old(Registries()), e, now), old(out), out)
    {
      match e
      case ClientConnected(a, name) => ClientConnected(a, name, now);
      case ClientDisconnected(a) => ClientDisconnected(a);
      case NewMessage(a, name, text) => NewMessage(a, name, text, now);
    }
  }
}
