/** The earlier Rust server (src/main.rs): the same session authority without authentication.
    Connect-time bans and the strike counter work as in the current server; an accepted frame
    is written to every other registered session. */
module Relay {
  import opened Utf8
  import opened Wire
  import opened Frames

  /** Time is a count of nanoseconds. */
  const NANOS_PER_SEC: nat := 1_000_000_000
  const BAN_LIMIT: nat := 10 * 60 * NANOS_PER_SEC
  const MESSAGE_RATE: nat := NANOS_PER_SEC
  const STRIKE_LIMIT: int := 10

  /** "You are banned!\n" */
  const BANNED: seq<byte> := [0x59, 0x6F, 0x75, 0x20, 0x61, 0x72, 0x65, 0x20, 0x62, 0x61, 0x6E, 0x6E, 0x65, 0x64, 0x21, 0x0A]

  datatype Client = Client(lastMessage: nat, strikeCount: int)

  datatype State = State(clients: map<Addr, Client>, bans: map<Ip, nat>)

  datatype Event =
    | Connected(addr: Addr)
    | Disconnected(addr: Addr)
    | New(addr: Addr, bytes: seq<byte>)

  /** No registry timestamp lies after `now` (the `duration_since(...).expect` calls). */
  predicate Timely(s: State, now: nat) {
    && (forall a :: a in s.clients ==> s.clients[a].lastMessage <= now)
    && (forall ip :: ip in s.bans ==> s.bans[ip] <= now)
  }

  predicate BanInForce(bans: map<Ip, nat>, ip: Ip, now: nat) {
    ip in bans && now - bans[ip] < BAN_LIMIT
  }

  predicate TooSoon(c: Client, now: nat) { now - c.lastMessage < MESSAGE_RATE }

  // ------------------------------------------------------------------ one event

  /** `ClientConnected`: as in the current server, the record is taken out and put back when
      still in force; otherwise a fresh session is registered. */
  function OnConnected(s: State, a: Addr, now: nat): Effect<State> {
    if BanInForce(s.bans, a.ip, now) then
      Effect(s, [BanNotice(a, BAN_LIMIT - (now - s.bans[a.ip])), Shutdown(a)], {}, [])
    else
      Quiet(State(s.clients[a := Client(now, 0)], s.bans - {a.ip}))
  }

  function OnDisconnected(s: State, a: Addr): Effect<State> {
    Quiet(State(s.clients - {a}, s.bans))
  }

  /** One more strike; at the limit the IP is banned from `now`, told and shut down. */
  function Strike(s: State, a: Addr, now: nat): Effect<State>
    requires a in s.clients
  {
    var c := s.clients[a];
    var c' := c.(strikeCount := c.strikeCount + 1);
    if c'.strikeCount >= STRIKE_LIMIT then
      Effect(State(s.clients[a := c'], s.bans[a.ip := now]), [Write(a, BANNED), Shutdown(a)], {}, [])
    else
      Quiet(State(s.clients[a := c'], s.bans))
  }

  /** `New`: an accepted frame goes, as it is, to every other session. */
  function OnNew(s: State, a: Addr, bytes: seq<byte>, now: nat): Effect<State> {
    if a !in s.clients then Quiet(s)
    else if TooSoon(s.clients[a], now) || !ValidUtf8(bytes) then Strike(s, a, now)
    else Effect(s, [], Recipients(s.clients, a, Anyone), bytes)
  }

  function Step(s: State, e: Event, now: nat): Effect<State>
    requires Timely(s, now)
  {
    match e
    case Connected(a) => OnConnected(s, a, now)
    case Disconnected(a) => OnDisconnected(s, a)
    case New(a, bytes) => OnNew(s, a, bytes, now)
  }

  lemma StepKeepsTimely(s: State, e: Event, now: nat, later: nat)
    requires Timely(s, now) && now <= later
    ensures Timely(Step(s, e, now).next, later)
  {
  }

  datatype Timed = Timed(at: nat, event: Event)

  predicate Chronological(evs: seq<Timed>) {
    forall i, j :: 0 <= i < j < |evs| ==> evs[i].at <= evs[j].at
  }

  function Run(s: State, evs: seq<Timed>): State
    requires Chronological(evs) && (evs != [] ==> Timely(s, evs[0].at))
    decreases |evs|
  {
    if evs == [] then s
    else
      var s' := Step(s, evs[0].event, evs[0].at).next;
      assert evs[1..] != [] ==> Timely(s', evs[1..][0].at) by {
        if |evs| > 1 { StepKeepsTimely(s, evs[0].event, evs[0].at, evs[1].at); }
      }
      Run(s', evs[1..])
  }

  // ------------------------------------------------------------------ properties

  /** A ban record in force is kept and no session is created; otherwise a fresh session is
      registered and any stale record is removed. */
  lemma ConnectHonoursBan(s: State, a: Addr, now: nat)
    requires Timely(s, now)
    ensures var r := Step(s, Connected(a), now);
      && r.fanout == {}
      && (BanInForce(s.bans, a.ip, now) ==>
            r.next == s && r.replies == [BanNotice(a, BAN_LIMIT - (now - s.bans[a.ip])), Shutdown(a)])
      && (!BanInForce(s.bans, a.ip, now) ==>
            && r.next.clients == s.clients[a := Client(now, 0)]
            && r.next.bans == s.bans - {a.ip} && r.replies == [])
  {
  }

  /** Disconnect removes that key only and is idempotent; `New` from an unknown address is
      ignored. */
  lemma DisconnectAndUnknown(s: State, a: Addr, bytes: seq<byte>, now: nat)
    requires Timely(s, now)
    ensures var r := Step(s, Disconnected(a), now);
      && r.replies == [] && r.fanout == {} && r.next.bans == s.bans
      && r.next.clients.Keys == s.clients.Keys - {a}
      && (forall b :: b in r.next.clients ==> r.next.clients[b] == s.clients[b])
      && Step(r.next, Disconnected(a), now).next == r.next
    ensures a !in s.clients ==> Step(s, New(a, bytes), now) == Quiet(s)
  {
  }

  /** A rate-window miss or a frame that is not UTF-8 adds exactly one strike, leaves the
      session otherwise as it was and registered, relays nothing, and writes the ban record
      exactly when the limit is reached. */
  lemma ViolationAddsOneStrike(s: State, a: Addr, bytes: seq<byte>, now: nat)
    requires Timely(s, now) && a in s.clients
    requires TooSoon(s.clients[a], now) || !ValidUtf8(bytes)
    ensures var r := Step(s, New(a, bytes), now); var c := s.clients[a];
      && r.next.clients == s.clients[a := c.(strikeCount := c.strikeCount + 1)]
      && r.fanout == {}
      && (c.strikeCount + 1 >= STRIKE_LIMIT ==>
            r.next.bans == s.bans[a.ip := now] && r.replies == [Write(a, BANNED), Shutdown(a)])
      && (c.strikeCount + 1 < STRIKE_LIMIT ==> r.next.bans == s.bans && r.replies == [])
  {
  }

  /** An accepted frame reaches every other registered session, whatever its state, and
      changes neither registry. */
  lemma AcceptedReachesAllOthers(s: State, a: Addr, bytes: seq<byte>, now: nat)
    requires Timely(s, now) && a in s.clients
    requires !TooSoon(s.clients[a], now) && ValidUtf8(bytes)
    ensures var r := Step(s, New(a, bytes), now);
      && r.next == s && r.replies == [] && r.payload == bytes
      && r.fanout == s.clients.Keys - {a}
  {
  }

  /** Between events a session changes only by gaining strikes. */
  lemma StepSuccessor(s: State, e: Event, now: nat, b: Addr)
    requires Timely(s, now) && e != Connected(b)
    requires b in Step(s, e, now).next.clients
    ensures b in s.clients
    ensures var d := Step(s, e, now).next.clients[b];
      d.lastMessage == s.clients[b].lastMessage && d.strikeCount >= s.clients[b].strikeCount
  {
  }

  /** Over any run without a reconnect from `b`, the window start of `b`'s session is its
      connection time, and strikes never decrease. */
  lemma {:induction false} SessionHistory(s: State, evs: seq<Timed>, b: Addr)
    requires Chronological(evs) && (evs != [] ==> Timely(s, evs[0].at))
    requires forall i :: 0 <= i < |evs| ==> evs[i].event != Connected(b)
    requires b in Run(s, evs).clients
    ensures b in s.clients
    ensures Run(s, evs).clients[b].lastMessage == s.clients[b].lastMessage
    ensures Run(s, evs).clients[b].strikeCount >= s.clients[b].strikeCount
    decreases |evs|
  {
    if evs != [] {
      var s' := Step(s, evs[0].event, evs[0].at).next;
      if |evs| > 1 { StepKeepsTimely(s, evs[0].event, evs[0].at, evs[1].at); }
      assert Run(s, evs) == Run(s', evs[1..]);
      SessionHistory(s', evs[1..], b);
      StepSuccessor(s, evs[0].event, evs[0].at, b);
    }
  }

  // ------------------------------------------------------------------ the reader thread

  /** One turn of the reader loop: a read error or end of stream sends `ClientDisconnected`
      and ends the reader; any other read forwards the printable bytes, even when none are
      left. */
  method ReadFrame(a: Addr, read: ReadResult) returns (step: ReaderStep<Event>)
    ensures read == ReadFailed || read == Received([]) ==> step == Hangup(Disconnected(a))
    ensures read.Received? && read.data != [] ==> step == Forward(New(a, Printable(read.data)))
  {
    if read.ReadFailed? || read.data == [] {
      return Hangup(Disconnected(a));
    }
    var bytes := FilterControl(read.data);
    step := Forward(New(a, bytes));
  }

  // ------------------------------------------------------------------ the event loop

  class Server {
    var clients: map<Addr, Client>
    var bans: map<Ip, nat>
    var out: seq<Output>

    function Registries(): State
      reads this
    {
      State(clients, bans)
    }

    constructor ()
      ensures clients == map[] && bans == map[] && out == []
    {
      clients := map[];
      bans := map[];
      out := [];
    }

    method Connected(a: Addr, now: nat)
      requires Timely(Registries(), now)
      modifies this
      ensures Registries() == OnConnected(old(Registries()), a, now).next
      ensures Emitted(OnConnected(old(Registries()), a, now), old(out), out)
    {
      var bannedAt: nat;
      var banned := a.ip in bans;
      if banned {
        bannedAt := bans[a.ip];
        bans := bans - {a.ip};
        if now - bannedAt >= BAN_LIMIT {
          banned := false;
        }
      }
      if banned {
        bans := bans[a.ip := bannedAt];
        out := out + [BanNotice(a, BAN_LIMIT - (now - bannedAt)), Shutdown(a)];
        assert bans == old(bans);
      } else {
        clients := clients[a := Client(now, 0)];
      }
    }

    method Disconnected(a: Addr)
      modifies this
      ensures Registries() == OnDisconnected(old(Registries()), a).next
      ensures Emitted(OnDisconnected(old(Registries()), a), old(out), out)
    {
      clients := clients - {a};
    }

    method RecordStrike(a: Addr, now: nat)
      requires a in clients
      modifies this
      ensures Registries() == Strike(old(Registries()), a, now).next
      ensures Emitted(Strike(old(Registries()), a, now), old(out), out)
    {
      var author := clients[a];
      author := author.(strikeCount := author.strikeCount + 1);
      clients := clients[a := author];
      if author.strikeCount >= STRIKE_LIMIT {
        bans := bans[a.ip := now];
        out := out + [Write(a, BANNED), Shutdown(a)];
      }
    }

    method New(a: Addr, bytes: seq<byte>, now: nat)
      requires Timely(Registries(), now)
      modifies this
      ensures Registries() == OnNew(old(Registries()), a, bytes, now).next
      ensures Emitted(OnNew(old(Registries()), a, bytes, now), old(out), out)
    {
      if a in clients {
        var author := clients[a];
        if now - author.lastMessage >= MESSAGE_RATE {
          if ValidUtf8(bytes) {
            var w := Broadcast(clients, a, Anyone, bytes);
            out := out + w;
          } else {
            RecordStrike(a, now);
          }
        } else {
          RecordStrike(a, now);
        }
      }
    }

    method Handle(e: Event, now: nat)
      requires Timely(Registries(), now)
      modifies this
      ensures Registries() == Step(old(Registries()), e, now).next
      ensures Emitted(Step(old(Registries()), e, now), old(out), out)
    {
      match e
      case Connected(a) => Connected(a, now);
      case Disconnected(a) => Disconnected(a);
      case New(a, bytes) => New(a, bytes, now);
    }

    method Serve(evs: seq<Timed>)
      requires Chronological(evs) && (evs != [] ==> Timely(Registries(), evs[0].at))
      modifies this
      ensures Registries() == Run(old(Registries()), evs)
      ensures old(out) <= out
    {
      var i := 0;
      while i < |evs|
        invariant 0 <= i <= |evs|
        invariant Chronological(evs[i..]) && (i < |evs| ==> Timely(Registries(), evs[i].at))
        invariant Run(old(Registries()), evs) == Run(Registries(), evs[i..])
        invariant old(out) <= out
        decreases |evs| - i
      {
        ghost var before := Registries();
        ghost var outBefore := out;
        Handle(evs[i].event, evs[i].at);
        if i + 1 < |evs| {
          StepKeepsTimely(before, evs[i].event, evs[i].at, evs[i + 1].at);
        }
        assert evs[i..][1..] == evs[i + 1..];
        assert outBefore <= out by { assert out[..|outBefore|] == outBefore; }
        i := i + 1;
      }
    }
  }
}
