/** What the servers see of the network: peer addresses, the socket effects they cause, and
    the fan-out of one frame to a set of peers.  Socket writes, `shutdown(Shutdown::Both)` and
    Go's `Close` are recorded in an output log instead of being performed. */
module Wire {
  import opened Utf8

  /** An IP address; only its identity matters, so it is a number. */
  type Ip = nat

  /** A full peer address (`SocketAddr`, or Go's `RemoteAddr().String()`). */
  datatype Addr = Addr(ip: Ip, port: nat)

  /** One socket effect.  `BanNotice` is the "You are banned buddy, ... left" write, whose
      remaining time the servers print as a floating-point number of seconds; the model keeps
      the remaining duration instead. */
  datatype Output =
    | Write(to: Addr, data: seq<byte>)
    | BanNotice(to: Addr, remaining: nat)
    | Shutdown(to: Addr)
    | Close(to: Addr)

  /** The outcome of handling one event: the next registry state, the writes and shutdowns
      addressed to the author (in order), and the broadcast of `payload` to `fanout`. */
  datatype Effect<S> = Effect(next: S, replies: seq<Output>, fanout: set<Addr>, payload: seq<byte>)

  /** An event that changes nothing and sends nothing. */
  function Quiet<S>(s: S): (r: Effect<S>)
    ensures r.next == s && r.replies == [] && r.fanout == {}
  {
    Effect(s, [], {}, [])
  }

  /** `w` writes `data` exactly once to each address of `to`, in some order, and does nothing
      else. */
  ghost predicate FanOut(w: seq<Output>, to: set<Addr>, data: seq<byte>) {
    && |w| == |to|
    && (forall i :: 0 <= i < |w| ==> w[i].Write? && w[i].to in to && w[i].data == data)
    && (forall i, j :: 0 <= i < j < |w| ==> w[i].to != w[j].to)
  }

  /** The log went from `before` to `after` by appending the replies of `e` and then its
      broadcast. */
  ghost predicate Emitted<S>(e: Effect<S>, before: seq<Output>, after: seq<Output>) {
    var k := |before| + |e.replies|;
    && k <= |after|
    && after[..|before|] == before
    && after[|before|..k] == e.replies
    && FanOut(after[k..], e.fanout, e.payload)
  }

  /** One more reply to the author, after the replies of an event that broadcasts nothing. */
  lemma EmittedThenReply<S>(e: Effect<S>, before: seq<Output>, mid: seq<Output>, o: Output)
    requires Emitted(e, before, mid) && e.fanout == {}
    ensures Emitted(e.(replies := e.replies + [o]), before, mid + [o])
  {
    var k := |before| + |e.replies|;
    assert mid[k..] == [];
    assert (mid + [o])[|before|..k + 1] == mid[|before|..k] + [o];
    assert (mid + [o])[k + 1..] == [];
  }

  /** A reply to the author before an event that has none of its own. */
  lemma ReplyThenEmitted<S>(e: Effect<S>, before: seq<Output>, after: seq<Output>, o: Output)
    requires Emitted(e, before + [o], after) && e.replies == []
    ensures Emitted(e.(replies := [o]), before, after)
  {
    var k := |before| + 1;
    assert after[..|before|] == after[..k][..|before|];
    assert after[..k] == before + [o];
  }

  /** The peers a frame from `author` is written to: every other registered address whose
      session passes `eligible`. */
  function Recipients<C>(clients: map<Addr, C>, author: Addr, eligible: C -> bool): set<Addr> {
    set b | b in clients && b != author && eligible(clients[b])
  }

  /** The filter of the servers without authentication. */
  function Anyone<C>(c: C): bool { true }

  /** The author's own entry never decides who receives: updating it before the loop, as
      the Go servers do, reaches the same peers as updating it after. */
  lemma RecipientsIgnoreAuthor<C>(clients: map<Addr, C>, author: Addr, c: C, eligible: C -> bool)
    ensures Recipients(clients[author := c], author, eligible) == Recipients(clients, author, eligible)
  {
  }

  /** A filter can only narrow the peers; without one, every other registered address is
      reached, one fewer than the registered count when the author is registered. */
  lemma RecipientsOfAnyone<C>(clients: map<Addr, C>, author: Addr, eligible: C -> bool)
    ensures Recipients(clients, author, eligible) <= Recipients(clients, author, Anyone)
    ensures Recipients(clients, author, Anyone) == clients.Keys - {author}
    ensures |Recipients(clients, author, Anyone)| == |clients| - (if author in clients then 1 else 0)
  {
    var others := clients.Keys - {author};
    assert Recipients(clients, author, Anyone) == others;
    if author in clients {
      assert clients.Keys == others + {author};
    } else {
      assert others == clients.Keys;
    }
  }

  /** The broadcast loop `for (addr, client) in clients.iter()`: writes `data` to every entry
      other than the author that passes `eligible`. */
  method Broadcast<C>(clients: map<Addr, C>, author: Addr, eligible: C -> bool, data: seq<byte>)
    returns (w: seq<Output>)
    ensures FanOut(w, Recipients(clients, author, eligible), data)
  {
    ghost var to := Recipients(clients, author, eligible);
    w := [];
    var pending := clients.Keys;
    while pending != {}
      invariant pending <= clients.Keys
      invariant FanOut(w, to - pending, data)
      decreases pending
    {
      var b :| b in pending;
      RecipientsStep(clients, author, eligible, pending, b);
      if b != author && eligible(clients[b]) {
        FanOutExtend(w, to - pending, b, data);
        w := w + [Write(b, data)];
      }
      pending := pending - {b};
    }
  }

  /** Taking `b` out of the pending addresses adds it to those already served exactly when
      it is a recipient. */
  lemma RecipientsStep<C>(clients: map<Addr, C>, author: Addr, eligible: C -> bool,
                          pending: set<Addr>, b: Addr)
    requires b in pending && pending <= clients.Keys
    ensures var to := Recipients(clients, author, eligible);
      && (b != author && eligible(clients[b]) ==>
            b !in to - pending && to - (pending - {b}) == (to - pending) + {b})
      && (!(b != author && eligible(clients[b])) ==> to - (pending - {b}) == to - pending)
  {
  }

  /** Writing to one more address keeps a fan-out a fan-out. */
  lemma FanOutExtend(w: seq<Output>, to: set<Addr>, b: Addr, data: seq<byte>)
    requires FanOut(w, to, data) && b !in to
    ensures FanOut(w + [Write(b, data)], to + {b}, data)
  {
    assert |to + {b}| == |to| + 1;
  }

  /** The addresses `w` writes to. */
  ghost function Destinations(w: seq<Output>): set<Addr> {
    set i | 0 <= i < |w| :: w[i].to
  }

  lemma {:induction false} DistinctDestinations(w: seq<Output>)
    requires forall i, j :: 0 <= i < j < |w| ==> w[i].to != w[j].to
    ensures |Destinations(w)| == |w|
    decreases |w|
  {
    if w != [] {
      var u := w[..|w| - 1];
      DistinctDestinations(u);
      assert Destinations(w) == Destinations(u) + {w[|w| - 1].to};
      assert w[|w| - 1].to !in Destinations(u);
    }
  }

  lemma {:induction false} SubsetCard<T>(a: set<T>, b: set<T>)
    requires a <= b
    ensures |a| <= |b|
    decreases a
  {
    if a != {} {
      var x :| x in a;
      SubsetCard(a - {x}, b - {x});
    }
  }

  lemma SameSizeSubset<T>(a: set<T>, b: set<T>)
    requires a <= b && |a| == |b|
    ensures a == b
  {
    if a != b {
      assert b - a != {} by {
        if b - a == {} {
          forall x | x in b ensures x in a { assert x !in b - a; }
        }
      }
      var x :| x in b - a;
      SubsetCard(a, b - {x});
    }
  }

  /** A fan-out reaches every address of `to`, and no other address; by `FanOut` each one
      exactly once. */
  lemma FanOutReachesExactly(w: seq<Output>, to: set<Addr>, data: seq<byte>)
    requires FanOut(w, to, data)
    ensures forall b :: b in to ==> exists i :: 0 <= i < |w| && w[i] == Write(b, data)
    ensures forall i :: 0 <= i < |w| ==> w[i].to in to
  {
    DistinctDestinations(w);
    assert Destinations(w) <= to;
    SameSizeSubset(Destinations(w), to);
    forall b | b in to ensures exists i :: 0 <= i < |w| && w[i] == Write(b, data) {
      assert b in Destinations(w);
      var i :| 0 <= i < |w| && w[i].to == b;
      assert w[i] == Write(b, data);
    }
  }
}
