/**
  The merged-log broadcaster of the dashboard (cmd/dashboard/logmux.go): a bounded ring that is replayed to
  new subscribers, and one bounded channel per subscriber that drops rather than blocks.

  The mutex makes each operation one step, so the interleavings are the sequences of operations.
 */
module LogMux {
  import opened Options

  datatype Event = Event(src: string, line: string, at: int)

  const RING: nat := 800
  const QUEUE: nat := 128

  /** The most recent events that fit the ring. */
  function Latest(s: seq<Event>): seq<Event> {
    if |s| > RING then s[|s| - RING..] else s
  }

  /** A send that gives up when the channel is full. */
  function Offer(queue: seq<Event>, ev: Event): seq<Event> {
    if |queue| < QUEUE then queue + [ev] else queue
  }

  // ---------------------------------------------------------------- the broadcaster on values

  /** A subscriber: the backlog it was handed, what it has taken off its channel, what waits there. */
  datatype Client = Client(backlog: seq<Event>, received: seq<Event>, queue: seq<Event>, live: bool)
  {
    function Seen(): seq<Event> {
      received + queue
    }

    function Heard(ev: Event): Client {
      if live then this.(queue := Offer(queue, ev)) else this
    }

    function Taken(): Client {
      if queue == [] then this else this.(received := received + [queue[0]], queue := queue[1..])
    }
  }

  /** Clients are numbered in the order they subscribed. */
  datatype State = State(ring: seq<Event>, clients: seq<Client>)

  datatype Op = Publish(ev: Event) | Subscribe | Receive(id: nat) | Unsubscribe(id: nat)

  function Step(s: State, op: Op): State {
    match op
    case Publish(ev) =>
      State(Latest(s.ring + [ev]), seq(|s.clients|, i requires 0 <= i < |s.clients| => s.clients[i].Heard(ev)))
    case Subscribe => s.(clients := s.clients + [Client(s.ring, [], [], true)])
    case Receive(id) => if id < |s.clients| then s.(clients := s.clients[id := s.clients[id].Taken()]) else s
    case Unsubscribe(id) =>
      if id < |s.clients| then s.(clients := s.clients[id := s.clients[id].(live := false)]) else s
  }

  /** The state after the first `n` operations. */
  function StateAt(ops: seq<Op>, n: nat): State
    requires n <= |ops|
  {
    if n == 0 then State([], []) else Step(StateAt(ops, n - 1), ops[n - 1])
  }

  /** Everything published by the first `n` operations. */
  function Published(ops: seq<Op>, n: nat): seq<Event>
    requires n <= |ops|
  {
    if n == 0 then []
    else Published(ops, n - 1) + if ops[n - 1].Publish? then [ops[n - 1].ev] else []
  }

  // ---------------------------------------------------------------- one client's share

  /** Operation `k` publishes while client `id` is subscribed. */
  predicate Addressed(ops: seq<Op>, id: nat, k: nat)
    requires k < |ops|
  {
    var s := StateAt(ops, k);
    ops[k].Publish? && id < |s.clients| && s.clients[id].live
  }

  /** ... and finds its channel full. */
  predicate FoundFull(ops: seq<Op>, id: nat, k: nat)
    requires k < |ops|
  {
    Addressed(ops, id, k) && |StateAt(ops, k).clients[id].queue| >= QUEUE
  }

  /** What had been published when client `id` subscribed (so far everything, if it has not). */
  function Before(ops: seq<Op>, n: nat, id: nat): seq<Event>
    requires n <= |ops|
  {
    if n > 0 && id < |StateAt(ops, n - 1).clients| then Before(ops, n - 1, id) else Published(ops, n)
  }

  /** What was published while client `id` was subscribed. */
  function During(ops: seq<Op>, n: nat, id: nat): seq<Event>
    requires n <= |ops|
  {
    if n == 0 then []
    else During(ops, n - 1, id) + if Addressed(ops, id, n - 1) then [ops[n - 1].ev] else []
  }

  /** `a` is `b` with some events left out. */
  predicate Subsequence(a: seq<Event>, b: seq<Event>) {
    if b == [] then a == []
    else
      var last := |b| - 1;
      || Subsequence(a, b[..last])
      || (a != [] && a[|a| - 1] == b[last] && Subsequence(a[..|a| - 1], b[..last]))
  }

  lemma {:induction false} NothingIsSubsequence(b: seq<Event>)
    ensures Subsequence([], b)
  {
    if b != [] {
      NothingIsSubsequence(b[..|b| - 1]);
    }
  }

  lemma SubsequenceGrows(a: seq<Event>, b: seq<Event>, ev: Event)
    requires Subsequence(a, b)
    ensures Subsequence(a, b + [ev]) && Subsequence(a + [ev], b + [ev])
  {
    assert (b + [ev])[..|b|] == b && (a + [ev])[..|a|] == a;
  }

  lemma {:induction false} SubsequenceLength(a: seq<Event>, b: seq<Event>)
    requires Subsequence(a, b)
    ensures |a| <= |b| && (|a| == |b| ==> a == b)
  {
    if b != [] {
      var last := |b| - 1;
      if Subsequence(a, b[..last]) {
        SubsequenceLength(a, b[..last]);
      } else {
        SubsequenceLength(a[..|a| - 1], b[..last]);
        assert a == a[..|a| - 1] + [a[|a| - 1]];
        assert b == b[..last] + [b[last]];
      }
    }
  }

  // ---------------------------------------------------------------- what every run keeps

  /** Trimming at every append is trimming once at the end. */
  lemma LatestGrows(s: seq<Event>, ev: Event)
    ensures Latest(Latest(s) + [ev]) == Latest(s + [ev])
  {
  }

  /** Main result.  The ring is always the most recent 800 events, or all of them. */
  lemma {:induction false} RingIsLatest(ops: seq<Op>, n: nat)
    requires n <= |ops|
    ensures StateAt(ops, n).ring == Latest(Published(ops, n))
  {
    if n > 0 {
      RingIsLatest(ops, n - 1);
      if ops[n - 1].Publish? {
        LatestGrows(Published(ops, n - 1), ops[n - 1].ev);
      } else {
        assert Published(ops, n - 1) + [] == Published(ops, n - 1);
      }
    }
  }

  /** A client only sees its own channel: nobody else's receiving, leaving or joining touches it. */
  lemma ClientStep(s: State, op: Op, id: nat)
    requires id < |s.clients|
    ensures var c, t := s.clients[id], Step(s, op);
            && id < |t.clients|
            && t.clients[id].backlog == c.backlog
            && t.clients[id].Seen() == (if op.Publish? && c.live && |c.queue| < QUEUE then c.Seen() + [op.ev] else c.Seen())
            && t.clients[id].live == (c.live && op != Unsubscribe(id))
            && (|c.queue| <= QUEUE ==> |t.clients[id].queue| <= QUEUE)
  {
    var c := s.clients[id];
    if op == Receive(id) && c.queue != [] {
      assert c.received + [c.queue[0]] + c.queue[1..] == c.received + c.queue;
    }
  }

  /** A client against what was published before it joined, while it was subscribed, and in all. */
  predicate Serving(c: Client, before: seq<Event>, during: seq<Event>, published: seq<Event>) {
    var share := before + during;
    && c.backlog == Latest(before)
    && Subsequence(c.Seen(), during)
    && |c.queue| <= QUEUE
    && |share| <= |published| && share == published[..|share|]
    && (c.live ==> share == published)
  }

  /** What holds of client `id` after `n` operations. */
  ghost predicate Served(ops: seq<Op>, n: nat, id: nat)
    requires n <= |ops| && id < |StateAt(ops, n).clients|
  {
    Serving(StateAt(ops, n).clients[id], Before(ops, n, id), During(ops, n, id), Published(ops, n))
  }

  /** An event published to a subscribed client, taken or dropped. */
  lemma ServingAddressed(c: Client, c': Client, before: seq<Event>, during: seq<Event>, published: seq<Event>, ev: Event)
    requires Serving(c, before, during, published) && c.live
    requires c'.backlog == c.backlog && c'.Seen() in {c.Seen(), c.Seen() + [ev]} && |c'.queue| <= QUEUE
    ensures Serving(c', before, during + [ev], published + [ev])
  {
    SubsequenceGrows(c.Seen(), during, ev);
    hide Subsequence, Latest;
    assert before + (during + [ev]) == (before + during) + [ev];
  }

  /** Anything else: at most an event published past a client that has left. */
  lemma ServingOtherwise(c: Client, c': Client, before: seq<Event>, during: seq<Event>, published: seq<Event>, more: seq<Event>)
    requires Serving(c, before, during, published) && (c.live ==> more == [])
    requires c'.backlog == c.backlog && c'.Seen() == c.Seen() && |c'.queue| <= QUEUE && (c'.live ==> c.live)
    ensures Serving(c', before, during, published + more)
  {
    hide Subsequence, Latest;
    assert (published + more)[..|before + during|] == published[..|before + during|];
  }

  /** No operation forgets a client. */
  lemma ClientsStay(s: State, op: Op)
    ensures |s.clients| <= |Step(s, op).clients|
  {
  }

  lemma {:induction false} NotYetAddressed(ops: seq<Op>, n: nat, id: nat)
    requires n <= |ops| && id >= |StateAt(ops, n).clients|
    ensures During(ops, n, id) == []
  {
    hide Step;
    if n > 0 {
      ClientsStay(StateAt(ops, n - 1), ops[n - 1]);
      NotYetAddressed(ops, n - 1, id);
    }
  }

  /** Only subscribing makes a client, and it starts with the ring and an empty channel. */
  lemma NewClient(s: State, op: Op, id: nat)
    requires |s.clients| <= id < |Step(s, op).clients|
    ensures op.Subscribe? && Step(s, op).clients[id] == Client(s.ring, [], [], true)
  {
  }

  lemma Joins(ops: seq<Op>, n: nat, id: nat)
    requires 0 < n <= |ops| && |StateAt(ops, n - 1).clients| <= id < |StateAt(ops, n).clients|
    ensures Served(ops, n, id) && !Addressed(ops, id, n - 1) && StateAt(ops, n).clients[id].Seen() == []
  {
    hide Step, Subsequence, Latest;
    NewClient(StateAt(ops, n - 1), ops[n - 1], id);
    RingIsLatest(ops, n - 1);
    NotYetAddressed(ops, n - 1, id);
    NothingIsSubsequence([]);
    assert During(ops, n, id) == [] && Before(ops, n, id) == Published(ops, n);
    assert Published(ops, n - 1) + [] == Published(ops, n - 1);
    assert Published(ops, n) + [] == Published(ops, n);
  }

  /** How a client's share and everything published move together in one operation. */
  lemma ShareStep(ops: seq<Op>, n: nat, id: nat)
    requires 0 < n <= |ops| && id < |StateAt(ops, n - 1).clients|
    ensures Before(ops, n, id) == Before(ops, n - 1, id)
    ensures var all, during := Published(ops, n - 1), During(ops, n - 1, id);
            && Published(ops, n) == (if ops[n - 1].Publish? then all + [ops[n - 1].ev] else all)
            && During(ops, n, id) == if Addressed(ops, id, n - 1) then during + [ops[n - 1].ev] else during
  {
    hide StateAt;
  }

  lemma Stays(ops: seq<Op>, n: nat, id: nat)
    requires 0 < n <= |ops| && id < |StateAt(ops, n - 1).clients|
    requires Served(ops, n - 1, id)
    ensures id < |StateAt(ops, n).clients| && Served(ops, n, id)
  {
    var s, op := StateAt(ops, n - 1), ops[n - 1];
    assert StateAt(ops, n) == Step(s, op);
    assert Addressed(ops, id, n - 1) == (op.Publish? && s.clients[id].live);
    hide Step, Serving, StateAt, Before, During, Published, Addressed;
    ClientStep(s, op, id);
    ShareStep(ops, n, id);
    var c, c' := s.clients[id], Step(s, op).clients[id];
    var before, during, published := Before(ops, n - 1, id), During(ops, n - 1, id), Published(ops, n - 1);
    ServingMeans(c, before, during, published);
    if op.Publish? && c.live {
      ServingAddressed(c, c', before, during, published, op.ev);
    } else {
      ServingOtherwise(c, c', before, during, published, if op.Publish? then [op.ev] else []);
      assert published + [] == published;
    }
  }

  lemma ServingMeans(c: Client, before: seq<Event>, during: seq<Event>, published: seq<Event>)
    requires Serving(c, before, during, published)
    ensures |c.queue| <= QUEUE
  {
  }

  /**
    Main result.  After any interleaving of publish, subscribe, receive and unsubscribe, each client was
    handed the last 800 events published before it joined, and what it has taken and still has waiting is,
    in order, part of what was published while it was subscribed: the stretch right after those, which for
    a client still subscribed runs to the latest event.
   */
  lemma {:induction false} EveryClientServed(ops: seq<Op>, n: nat, id: nat)
    requires n <= |ops| && id < |StateAt(ops, n).clients|
    ensures Served(ops, n, id)
  {
    if n > 0 {
      if id < |StateAt(ops, n - 1).clients| {
        EveryClientServed(ops, n - 1, id);
        Stays(ops, n, id);
      } else {
        Joins(ops, n, id);
      }
    }
  }

  /** How many events were dropped for client `id`. */
  function Drops(ops: seq<Op>, n: nat, id: nat): nat
    requires n <= |ops|
  {
    if n == 0 then 0 else Drops(ops, n - 1, id) + if FoundFull(ops, id, n - 1) then 1 else 0
  }

  lemma {:induction false} NoDropsExactly(ops: seq<Op>, n: nat, id: nat)
    requires n <= |ops|
    ensures Drops(ops, n, id) == 0 <==> forall k :: 0 <= k < n ==> !FoundFull(ops, id, k)
  {
    if n > 0 {
      NoDropsExactly(ops, n - 1, id);
    }
  }

  lemma {:induction false} NoDropsYet(ops: seq<Op>, n: nat, id: nat)
    requires n <= |ops| && id >= |StateAt(ops, n).clients|
    ensures Drops(ops, n, id) == 0
  {
    hide Step;
    if n > 0 {
      ClientsStay(StateAt(ops, n - 1), ops[n - 1]);
      NoDropsYet(ops, n - 1, id);
    }
  }

  /** Conservation: every event addressed to a client is received, waiting, or was dropped. */
  lemma {:induction false} NothingElseIsLost(ops: seq<Op>, n: nat, id: nat)
    requires n <= |ops| && id < |StateAt(ops, n).clients|
    ensures |StateAt(ops, n).clients[id].Seen()| + Drops(ops, n, id) == |During(ops, n, id)|
  {
    hide Step;
    if n > 0 {
      if id < |StateAt(ops, n - 1).clients| {
        NothingElseIsLost(ops, n - 1, id);
        ClientStep(StateAt(ops, n - 1), ops[n - 1], id);
      } else {
        Joins(ops, n, id);
        NotYetAddressed(ops, n - 1, id);
        NoDropsYet(ops, n - 1, id);
      }
    }
  }

  /**
    Main result.  A subscribed client has the complete stream, its backlog continued without a gap up to
    the latest event, if and only if no publish ever found its channel full.
   */
  lemma CompleteStreamExactly(ops: seq<Op>, n: nat, id: nat)
    requires n <= |ops| && id < |StateAt(ops, n).clients| && StateAt(ops, n).clients[id].live
    ensures var c := StateAt(ops, n).clients[id];
            && Before(ops, n, id) + c.Seen() == Published(ops, n) <==> forall k :: 0 <= k < n ==> !FoundFull(ops, id, k)
  {
    var c := StateAt(ops, n).clients[id];
    EveryClientServed(ops, n, id);
    NothingElseIsLost(ops, n, id);
    NoDropsExactly(ops, n, id);
    SubsequenceLength(c.Seen(), During(ops, n, id));
    if Before(ops, n, id) + c.Seen() == Published(ops, n) {
      assert |c.Seen()| == |During(ops, n, id)|;
    }
  }

  // ---------------------------------------------------------------- what receiving hands out

  /** The ring keeps the 800 most recent events, or all there are, in their order. */
  lemma LatestIsSuffix(s: seq<Event>)
    ensures |Latest(s)| == if |s| < 800 then |s| else 800
    ensures Latest(s) == s[|s| - |Latest(s)|..]
  {
  }

  /** Operation `k` is a receive of client `id` that finds something on its channel. */
  predicate Receives(ops: seq<Op>, id: nat, k: nat)
    requires k < |ops|
  {
    var s := StateAt(ops, k);
    ops[k] == Receive(id) && id < |s.clients| && s.clients[id].queue != []
  }

  /** What the receives of client `id` among the first `n` operations have handed out, in order. */
  function HandedOut(ops: seq<Op>, n: nat, id: nat): seq<Event>
    requires n <= |ops|
  {
    if n == 0 then []
    else HandedOut(ops, n - 1, id) + if Receives(ops, id, n - 1) then [StateAt(ops, n - 1).clients[id].queue[0]] else []
  }

  /** A receive takes the oldest queued event off the channel; nothing else changes what was received. */
  lemma ReceiveStep(s: State, op: Op, id: nat)
    requires id < |s.clients|
    ensures var c, t := s.clients[id], Step(s, op);
            && id < |t.clients|
            && (op == Receive(id) && c.queue != [] ==>
                  t.clients[id].received == c.received + [c.queue[0]] && t.clients[id].queue == c.queue[1..])
            && (!(op == Receive(id) && c.queue != []) ==> t.clients[id].received == c.received)
  {
  }

  lemma {:induction false} NothingHandedOutYet(ops: seq<Op>, n: nat, id: nat)
    requires n <= |ops| && id >= |StateAt(ops, n).clients|
    ensures HandedOut(ops, n, id) == []
  {
    hide Step;
    if n > 0 {
      ClientsStay(StateAt(ops, n - 1), ops[n - 1]);
      NothingHandedOutYet(ops, n - 1, id);
    }
  }

  /** Main result.  What a client has received is exactly what its receives handed out: each event once, in order. */
  lemma {:induction false} ReceivedIsHandedOut(ops: seq<Op>, n: nat, id: nat)
    requires n <= |ops| && id < |StateAt(ops, n).clients|
    ensures StateAt(ops, n).clients[id].received == HandedOut(ops, n, id)
  {
    hide Step;
    if n > 0 {
      var s, op := StateAt(ops, n - 1), ops[n - 1];
      if id < |s.clients| {
        ReceivedIsHandedOut(ops, n - 1, id);
        ReceiveStep(s, op, id);
      } else {
        NewClient(s, op, id);
        NothingHandedOutYet(ops, n - 1, id);
      }
    }
  }

  /** What is seen is only ever added to, so the k-th receive that succeeds hands out the k-th event ever seen. */
  lemma {:induction false} SeenGrows(ops: seq<Op>, m: nat, n: nat, id: nat)
    requires m <= n <= |ops| && id < |StateAt(ops, m).clients|
    ensures id < |StateAt(ops, n).clients|
    ensures StateAt(ops, m).clients[id].Seen() <= StateAt(ops, n).clients[id].Seen()
  {
    hide Step;
    if m < n {
      SeenGrows(ops, m, n - 1, id);
      ClientStep(StateAt(ops, n - 1), ops[n - 1], id);
    }
  }

  lemma HandsOutInOrder(ops: seq<Op>, k: nat, n: nat, id: nat)
    requires k < n <= |ops| && Receives(ops, id, k)
    ensures id < |StateAt(ops, n).clients|
    ensures var j, seen := |HandedOut(ops, k, id)|, StateAt(ops, n).clients[id].Seen();
            j < |seen| && StateAt(ops, k).clients[id].queue[0] == seen[j]
  {
    hide Step;
    ReceivedIsHandedOut(ops, k, id);
    SeenGrows(ops, k, n, id);
    var c := StateAt(ops, k).clients[id];
    assert c.Seen()[|c.received|] == c.queue[0];
  }

  /** A channel holds 128 events: a send adds to fewer, in order, and leaves a full one alone. */
  lemma OfferIsBounded(queue: seq<Event>, ev: Event)
    ensures |queue| < 128 ==> Offer(queue, ev) == queue + [ev]
    ensures |queue| >= 128 ==> Offer(queue, ev) == queue
  {
  }

  // ---------------------------------------------------------------- the broadcaster as it is

  /** A bounded channel; the ghost fields remember what its reader was given. */
  class Channel {
    var queue: seq<Event>
    ghost var received: seq<Event>
    ghost const backlog: seq<Event>

    constructor (ghost backlog: seq<Event>)
      ensures queue == [] && received == [] && this.backlog == backlog
    {
      queue, received, this.backlog := [], [], backlog;
    }

    /** The send with a default case. */
    method TrySend(ev: Event)
      modifies this`queue
      ensures queue == Offer(old(queue), ev)
    {
      if |queue| < QUEUE {
        queue := queue + [ev];
      }
    }

    ghost function AsClient(live: bool): Client
      reads this
    {
      Client(backlog, received, queue, live)
    }
  }

  class Mux {
    var ring: seq<Event>
    var subs: set<Channel>
    ghost var all: seq<Channel>        // every channel ever handed out, in order

    ghost predicate Valid()
      reads this
    {
      && (forall ch :: ch in subs ==> ch in all)
      && forall i, j :: 0 <= i < j < |all| ==> all[i] != all[j]
    }

    ghost function Model(): State
      reads this, all
    {
      State(ring, seq(|all|, i requires 0 <= i < |all| reads this, all => all[i].AsClient(all[i] in subs)))
    }

    constructor ()
      ensures Valid() && Model() == State([], [])
    {
      ring, subs, all := [], {}, [];
    }

    /** Append to the ring, trim it, and offer the event to every subscriber. */
    method PublishEvent(ev: Event)
      requires Valid()
      modifies this`ring, subs`queue
      ensures Valid() && Model() == Step(old(Model()), Publish(ev))
      ensures ring == Latest(old(ring) + [ev])
      ensures forall ch :: ch in subs ==> ch.queue == Offer(old(ch.queue), ev)
    {
      ring := ring + [ev];
      if |ring| > RING {
        ring := ring[|ring| - RING..];
      }
      var todo := subs;
      while todo != {}
        invariant todo <= subs
        invariant forall ch :: ch in todo ==> ch.queue == old(ch.queue)
        invariant forall ch :: ch in subs - todo ==> ch.queue == Offer(old(ch.queue), ev)
        modifies subs`queue
        decreases todo
      {
        var ch :| ch in todo;
        ch.TrySend(ev);
        todo := todo - {ch};
      }
    }

    /** A new empty channel, with a copy of the ring. */
    method SubscribeNew() returns (ch: Channel, backlog: seq<Event>)
      requires Valid()
      modifies this`subs, this`all
      ensures fresh(ch) && backlog == ring && subs == old(subs) + {ch} && all == old(all) + [ch]
      ensures Valid() && Model() == Step(old(Model()), Subscribe)
    {
      ch := new Channel(ring);
      backlog := ring;
      subs := subs + {ch};
      all := all + [ch];
    }

    method UnsubscribeFrom(ch: Channel, ghost id: nat)
      requires Valid() && id < |all| && all[id] == ch
      modifies this`subs
      ensures subs == old(subs) - {ch}
      ensures Valid() && Model() == Step(old(Model()), Unsubscribe(id))
    {
      subs := subs - {ch};
    }

    /** The reader takes the oldest event off its channel, if there is one. */
    method ReceiveFrom(ch: Channel, ghost id: nat) returns (ev: Option<Event>)
      requires Valid() && id < |all| && all[id] == ch
      modifies ch
      ensures ev == if old(ch.queue) == [] then None else Some(old(ch.queue)[0])
      ensures ev.None? ==> ch.queue == [] && ch.received == old(ch.received)
      ensures ev.Some? ==> ch.queue == old(ch.queue)[1..] && ch.received == old(ch.received) + [ev.value]
      ensures Valid() && Model() == Step(old(Model()), Receive(id))
    {
      if ch.queue == [] {
        return None;
      }
      ev := Some(ch.queue[0]);
      ch.received := ch.received + [ch.queue[0]];
      ch.queue := ch.queue[1..];
    }
  }
}
