/** The snapshot fan-out of docker.Hub as a protocol: one publisher, one
    broadcaster, and for every connection a handler and a write pump, all running
    concurrently. Frames are numbered in publication order. A channel of capacity
    one is a sequence of at most one frame. Everything done under the hub's lock
    is one action, except the broadcaster's fan-out, which is cut at every channel
    operation so that a write pump may receive between any two of them. */
module HubProtocol {
  import opened Text

  type Frame = nat
  type ClientId = nat

  datatype Phase = Upgraded | Registered | Rejected | Unregistered

  /** `taken` are the frames the write pump has received, in order; `mark` is how
      many frames had been fanned out when the client registered. */
  datatype Client = Client(phase: Phase, buf: seq<Frame>, closed: bool, taken: seq<Frame>, pumping: bool, mark: nat)

  /** Where the broadcaster is. From `Ranging` on it holds the lock: `Ranging` is
      between two clients, `Full` after the first select of enqueue found the
      buffer full, `Drained` after the second. */
  datatype Broadcaster =
    | Waiting
    | Received(msg: Frame)
    | Ranging(msg: Frame, todo: set<ClientId>)
    | Full(msg: Frame, at: ClientId, todo: set<ClientId>)
    | Drained(msg: Frame, at: ClientId, todo: set<ClientId>)

  /** `fanned` lists the frames fanned out so far, `chan` is the publish channel and
      `blocked` a frame whose Publish has not returned. `fault` records a send on a
      closed channel, a second close, a send that would block under the lock, or a
      frame dropped by the last default of enqueue. */
  datatype Hub = Hub(
    maxClients: int,
    clients: map<ClientId, Client>,
    lastFanned: Option<Frame>,
    fanned: seq<Frame>,
    chan: seq<Frame>,
    blocked: Option<Frame>,
    published: nat,
    bc: Broadcaster,
    fault: bool)

  function NewHub(maxClients: int): Hub {
    Hub(maxClients, map[], None, [], [], None, 0, Waiting, false)
  }

  predicate LockFree(s: Hub) {
    s.bc.Waiting? || s.bc.Received?
  }

  function RegisteredIds(clients: map<ClientId, Client>): set<ClientId> {
    set id | id in clients && clients[id].phase.Registered?
  }

  predicate AtCapacity(s: Hub) {
    s.maxClients > 0 && |RegisteredIds(s.clients)| >= s.maxClients
  }

  predicate Ready(s: Hub) {
    s.lastFanned.Some?
  }

  // ----- actions -----

  datatype Action =
    | Publish
    | Unblock
    | Receive
    | Lock
    | TrySend(id: ClientId)
    | Drain
    | FinalSend
    | Unlock
    | Connect(id: ClientId)
    | Register(id: ClientId)
    | Unregister(id: ClientId)
    | Take(id: ClientId, written: bool)
    | Stop(id: ClientId)

  predicate Enabled(s: Hub, a: Action) {
    match a
    case Publish => s.blocked.None?
    case Unblock => s.blocked.Some? && s.chan == []
    case Receive => s.bc.Waiting? && s.chan != []
    case Lock => s.bc.Received?
    case TrySend(id) => s.bc.Ranging? && id in s.bc.todo && id in s.clients
    case Drain => s.bc.Full? && s.bc.at in s.clients
    case FinalSend => s.bc.Drained? && s.bc.at in s.clients
    case Unlock => s.bc.Ranging? && s.bc.todo == {}
    case Connect(id) => LockFree(s) && id !in s.clients
    case Register(id) => LockFree(s) && id in s.clients && s.clients[id].phase.Upgraded?
    case Unregister(id) => LockFree(s) && id in s.clients
    case Take(id, _) => id in s.clients && s.clients[id].pumping && s.clients[id].buf != []
    case Stop(id) => id in s.clients && s.clients[id].pumping
  }

  function SetClient(s: Hub, id: ClientId, c: Client): Hub {
    s.(clients := s.clients[id := c])
  }

  /** A send in a select with a default: into an empty buffer or not at all. */
  function Send(c: Client, msg: Frame): Client {
    if c.buf == [] then c.(buf := [msg]) else c
  }

  function DoPublish(s: Hub): Hub {
    var f := s.published;
    if s.chan == [] then s.(published := f + 1, chan := [f]) else s.(published := f + 1, blocked := Some(f))
  }

  function DoRegister(s: Hub, id: ClientId): Hub
    requires id in s.clients
  {
    var c := s.clients[id];
    if AtCapacity(s) then SetClient(s, id, c.(phase := Rejected))
    else
      var member := c.(phase := Registered, pumping := true, mark := |s.fanned|);
      if s.lastFanned.None? then SetClient(s, id, member)
      else SetClient(s, id, Send(member, s.lastFanned.value)).(fault := s.fault || c.closed || c.buf != [])
  }

  function DoUnregister(s: Hub, id: ClientId): Hub
    requires id in s.clients
  {
    var c := s.clients[id];
    if !c.phase.Registered? then s
    else SetClient(s, id, c.(phase := Unregistered, closed := true)).(fault := s.fault || c.closed)
  }

  function DoLock(s: Hub): Hub
    requires s.bc.Received?
  {
    var m := s.bc.msg;
    s.(lastFanned := Some(m), fanned := s.fanned + [m], bc := Ranging(m, RegisteredIds(s.clients)))
  }

  function DoTrySend(s: Hub, id: ClientId): Hub
    requires s.bc.Ranging? && id in s.clients
  {
    var c, m, rest := s.clients[id], s.bc.msg, s.bc.todo - {id};
    SetClient(s, id, Send(c, m)).(
      bc := if c.buf == [] then Ranging(m, rest) else Full(m, id, rest),
      fault := s.fault || c.closed)
  }

  function DoDrain(s: Hub): Hub
    requires s.bc.Full? && s.bc.at in s.clients
  {
    SetClient(s, s.bc.at, s.clients[s.bc.at].(buf := [])).(bc := Drained(s.bc.msg, s.bc.at, s.bc.todo))
  }

  function DoFinalSend(s: Hub): Hub
    requires s.bc.Drained? && s.bc.at in s.clients
  {
    var c := s.clients[s.bc.at];
    SetClient(s, s.bc.at, Send(c, s.bc.msg)).(
      bc := Ranging(s.bc.msg, s.bc.todo),
      fault := s.fault || c.closed || c.buf != [])
  }

  function DoTake(s: Hub, id: ClientId, written: bool): Hub
    requires id in s.clients && s.clients[id].buf != []
  {
    var c := s.clients[id];
    SetClient(s, id, c.(taken := c.taken + [c.buf[0]], buf := [], pumping := written))
  }

  function Next(s: Hub, a: Action): Hub
    requires Enabled(s, a)
  {
    match a
    case Publish => DoPublish(s)
    case Unblock => s.(chan := [s.blocked.value], blocked := None)
    case Receive => s.(bc := Received(s.chan[0]), chan := [])
    case Lock => DoLock(s)
    case TrySend(id) => DoTrySend(s, id)
    case Drain => DoDrain(s)
    case FinalSend => DoFinalSend(s)
    case Unlock => s.(bc := Waiting)
    case Connect(id) =>
      if AtCapacity(s) then s else SetClient(s, id, Client(Upgraded, [], false, [], false, 0))
    case Register(id) => DoRegister(s, id)
    case Unregister(id) => DoUnregister(s, id)
    case Take(id, written) => DoTake(s, id, written)
    case Stop(id) => SetClient(s, id, s.clients[id].(pumping := false))
  }

  // ----- what every reachable state satisfies -----

  predicate Increasing(xs: seq<nat>) {
    forall i, j | 0 <= i < j < |xs| :: xs[i] < xs[j]
  }

  /** The frames taken, followed by the one waiting, increase strictly. */
  predicate Ordered(c: Client) {
    Increasing(c.taken) && forall f, g | f in c.taken && g in c.buf :: f < g
  }

  /** The frames 0, 1, ..., n - 1. */
  function Upto(n: nat): seq<Frame> {
    seq(n, i => i)
  }

  /** Published frames not yet fanned out: in the broadcaster's hand, in the
      channel, at the blocked publisher. */
  function InTransit(s: Hub): seq<Frame> {
    (if s.bc.Received? then [s.bc.msg] else []) + s.chan + (if s.blocked.Some? then [s.blocked.value] else [])
  }

  /** Of `n` frames fanned out, the last is waiting in the buffer or is the last
      one the write pump took. */
  predicate UpToDate(c: Client, n: nat) {
    if n == 0 then c.buf == [] && c.taken == []
    else c.buf == [n - 1] || (c.buf == [] && c.taken != [] && c.taken[|c.taken| - 1] == n - 1)
  }

  /** What holds of a registered client while the broadcaster is at `bc`. */
  predicate Tracks(n: nat, bc: Broadcaster, id: ClientId, c: Client) {
    match bc
    case Waiting => UpToDate(c, n)
    case Received(_) => UpToDate(c, n)
    case Ranging(_, todo) => n > 0 && UpToDate(c, if id in todo then n - 1 else n)
    case Full(_, at, todo) => n > 0 && UpToDate(c, if id == at || id in todo then n - 1 else n)
    case Drained(_, at, todo) =>
      n > 0 && if id == at then c.buf == [] else UpToDate(c, if id in todo then n - 1 else n)
  }

  predicate ClientInv(n: nat, bc: Broadcaster, id: ClientId, c: Client) {
    && |c.buf| <= 1
    && Ordered(c)
    && (forall f | f in c.taken :: c.mark <= f + 1 <= n)
    && (forall f | f in c.buf :: c.mark <= f + 1 <= n)
    && c.mark <= n
    && (bc.Drained? && bc.at == id ==> forall f | f in c.taken :: f < n - 1)
    && match c.phase
       case Upgraded => c.buf == [] && c.taken == [] && !c.closed && !c.pumping
       case Rejected => c.buf == [] && c.taken == [] && !c.closed && !c.pumping
       case Registered => !c.closed && Tracks(n, bc, id, c)
       case Unregistered => c.closed
  }

  predicate BroadcasterInv(s: Hub) {
    match s.bc
    case Waiting => true
    case Received(_) => true
    case Ranging(m, todo) =>
      s.lastFanned == Some(m) && todo <= RegisteredIds(s.clients)
    case Full(m, at, todo) =>
      s.lastFanned == Some(m) && todo <= RegisteredIds(s.clients) && at in RegisteredIds(s.clients) && at !in todo
    case Drained(m, at, todo) =>
      s.lastFanned == Some(m) && todo <= RegisteredIds(s.clients) && at in RegisteredIds(s.clients) && at !in todo
  }

  /** No published frame is lost, duplicated or reordered on its way to fan-out. */
  predicate FlowInv(s: Hub) {
    && |s.chan| <= 1
    && s.fanned + InTransit(s) == Upto(s.published)
    && s.lastFanned == (if s.fanned == [] then None else Some(s.fanned[|s.fanned| - 1]))
  }

  predicate CapacityInv(s: Hub) {
    s.maxClients > 0 ==> |RegisteredIds(s.clients)| <= s.maxClients
  }

  predicate ClientsInv(s: Hub) {
    forall id | id in s.clients :: ClientInv(|s.fanned|, s.bc, id, s.clients[id])
  }

  predicate Inv(s: Hub) {
    !s.fault && FlowInv(s) && CapacityInv(s) && BroadcasterInv(s) && ClientsInv(s)
  }

  lemma FannedIsNumbered(s: Hub)
    requires s.fanned + InTransit(s) == Upto(s.published)
    ensures s.fanned == Upto(|s.fanned|)
    ensures forall i | 0 <= i < |InTransit(s)| :: InTransit(s)[i] == |s.fanned| + i
  {
    assert |s.fanned| <= s.published;
    forall i | 0 <= i < |s.fanned| ensures s.fanned[i] == i {
      assert (s.fanned + InTransit(s))[i] == i;
    }
    forall i | 0 <= i < |InTransit(s)| ensures InTransit(s)[i] == |s.fanned| + i {
      assert (s.fanned + InTransit(s))[|s.fanned| + i] == |s.fanned| + i;
    }
  }

  lemma LastFannedNumber(s: Hub)
    requires FlowInv(s) && s.lastFanned.Some?
    ensures |s.fanned| > 0 && s.lastFanned.value == |s.fanned| - 1
  {
    FannedIsNumbered(s);
  }

  /** Steps that leave the publisher, the channel and the broadcaster's hand alone. */
  predicate SameFlow(s: Hub, t: Hub) {
    && t == s.(clients := t.clients, bc := t.bc, fault := t.fault)
    && (t.bc == s.bc || (!t.bc.Received? && !s.bc.Received?))
  }

  lemma SameFlowKeepsFlow(s: Hub, t: Hub)
    requires FlowInv(s) && SameFlow(s, t)
    ensures FlowInv(t)
  {
  }

  /** The actions of the publisher and the broadcaster's receive. */
  lemma TransitKeepsInv(s: Hub, a: Action)
    requires Inv(s) && Enabled(s, a) && (a.Publish? || a.Unblock? || a.Receive?)
    ensures Inv(Next(s, a))
  {
    var t := Next(s, a);
    match a
    case Publish =>
      assert InTransit(t) == InTransit(s) + [s.published];
      assert t.fanned + InTransit(t) == (s.fanned + InTransit(s)) + [s.published];
      assert Upto(s.published) + [s.published] == Upto(t.published);
    case Unblock => assert InTransit(t) == InTransit(s);
    case Receive => assert InTransit(t) == InTransit(s);
  }

  lemma LockKeepsInv(s: Hub)
    requires Inv(s) && Enabled(s, Lock)
    ensures Inv(Next(s, Lock))
  {
    var t := Next(s, Lock);
    FannedIsNumbered(s);
    assert InTransit(s)[0] == s.bc.msg == |s.fanned|;
    assert InTransit(s) == [s.bc.msg] + InTransit(t);
    assert t.fanned + InTransit(t) == s.fanned + InTransit(s);
    forall id | id in t.clients ensures ClientInv(|t.fanned|, t.bc, id, t.clients[id]) {
      assert ClientInv(|s.fanned|, s.bc, id, s.clients[id]);
    }
  }

  /** A client that has not been sent the newest frame has taken only older ones. */
  lemma TrailsBehind(c: Client, n: nat)
    requires n > 0 && |c.buf| <= 1 && Ordered(c) && UpToDate(c, n - 1)
    ensures forall f | f in c.taken :: f < n - 1
  {
    if c.buf != [] {
      assert c.buf[0] in c.buf;
    } else if c.taken != [] {
      var k := |c.taken| - 1;
      assert forall i | 0 <= i < k :: c.taken[i] < c.taken[k];
    }
  }

  /** The three selects of enqueue, seen by the client they concern. */
  lemma EnqueueKeepsClient(s: Hub, a: Action, id: ClientId)
    requires Inv(s) && Enabled(s, a) && !LockFree(s) && id in s.clients
    requires (a == TrySend(id)) || (a.Drain? && s.bc.at == id) || (a.FinalSend? && s.bc.at == id)
    ensures var t := Next(s, a); !t.fault && ClientInv(|t.fanned|, t.bc, id, t.clients[id])
  {
    LastFannedNumber(s);
    var c := s.clients[id];
    assert ClientInv(|s.fanned|, s.bc, id, c);
    assert id in RegisteredIds(s.clients);
    if !a.FinalSend? {
      TrailsBehind(c, |s.fanned|);
    }
  }

  /** ... and by the others, whom they do not concern. */
  lemma EnqueueKeepsOther(s: Hub, a: Action, id: ClientId, k: ClientId)
    requires Inv(s) && Enabled(s, a) && !LockFree(s) && id in s.clients && k in s.clients && k != id
    requires (a == TrySend(id)) || (a.Drain? && s.bc.at == id) || (a.FinalSend? && s.bc.at == id)
    ensures ClientInv(|s.fanned|, Next(s, a).bc, k, s.clients[k])
  {
  }

  lemma EnqueueKeepsInv(s: Hub, a: Action, id: ClientId)
    requires Inv(s) && Enabled(s, a) && !LockFree(s) && id in s.clients
    requires (a == TrySend(id)) || (a.Drain? && s.bc.at == id) || (a.FinalSend? && s.bc.at == id)
    ensures Inv(Next(s, a))
  {
    var t := Next(s, a);
    EnqueueKeepsClient(s, a, id);
    assert FlowInv(t) by {
      SameFlowKeepsFlow(s, t);
    }
    assert RegisteredIds(t.clients) == RegisteredIds(s.clients);
    assert ClientsInv(t) by {
      forall k | k in t.clients ensures ClientInv(|t.fanned|, t.bc, k, t.clients[k]) {
        if k != id {
          EnqueueKeepsOther(s, a, id, k);
        }
      }
    }
  }

  lemma UnlockKeepsInv(s: Hub)
    requires Inv(s) && Enabled(s, Unlock)
    ensures Inv(Next(s, Unlock))
  {
  }

  /** An action of one connection, given what it does to its own client. */
  lemma OneClientKeepsInv(s: Hub, t: Hub, id: ClientId)
    requires Inv(s) && id in t.clients && !t.fault
    requires t == SetClient(s, id, t.clients[id])
    requires ClientInv(|s.fanned|, s.bc, id, t.clients[id])
    requires CapacityInv(t) && BroadcasterInv(t)
    ensures Inv(t)
  {
  }

  lemma RegisterKeepsClient(s: Hub, id: ClientId)
    requires Inv(s) && Enabled(s, Register(id))
    ensures var t := Next(s, Register(id)); !t.fault && ClientInv(|s.fanned|, s.bc, id, t.clients[id])
  {
    assert ClientInv(|s.fanned|, s.bc, id, s.clients[id]);
    if s.lastFanned.Some? {
      LastFannedNumber(s);
    }
  }

  lemma RegisterKeepsCapacity(s: Hub, id: ClientId)
    requires CapacityInv(s) && Enabled(s, Register(id))
    ensures CapacityInv(Next(s, Register(id)))
  {
    var t := Next(s, Register(id));
    if AtCapacity(s) {
      assert RegisteredIds(t.clients) == RegisteredIds(s.clients);
    } else {
      assert RegisteredIds(t.clients) == RegisteredIds(s.clients) + {id};
    }
  }

  lemma RegisterKeepsInv(s: Hub, id: ClientId)
    requires Inv(s) && Enabled(s, Register(id))
    ensures Inv(Next(s, Register(id)))
  {
    RegisterKeepsClient(s, id);
    RegisterKeepsCapacity(s, id);
    OneClientKeepsInv(s, Next(s, Register(id)), id);
  }

  lemma UnregisterKeepsInv(s: Hub, id: ClientId)
    requires Inv(s) && Enabled(s, Unregister(id))
    ensures Inv(Next(s, Unregister(id)))
  {
    var t := Next(s, Unregister(id));
    assert ClientInv(|s.fanned|, s.bc, id, s.clients[id]);
    if s.clients[id].phase.Registered? {
      assert RegisteredIds(t.clients) == RegisteredIds(s.clients) - {id};
      OneClientKeepsInv(s, t, id);
    }
  }

  lemma TakeKeepsOrder(c: Client)
    requires |c.buf| == 1 && Ordered(c)
    ensures Increasing(c.taken + [c.buf[0]])
    ensures forall f | f in c.taken + [c.buf[0]] :: f in c.taken || f in c.buf
  {
    assert c.buf[0] in c.buf;
    forall i, j | 0 <= i < j <= |c.taken| ensures (c.taken + [c.buf[0]])[i] < (c.taken + [c.buf[0]])[j] {
      assert c.taken[i] in c.taken;
    }
  }

  /** What the write pump or the handshake does, wherever the broadcaster is. */
  lemma PeerKeepsClient(s: Hub, a: Action)
    requires Inv(s) && Enabled(s, a) && (a.Take? || a.Stop? || (a.Connect? && !AtCapacity(s)))
    ensures ClientInv(|s.fanned|, s.bc, a.id, Next(s, a).clients[a.id])
  {
    if !a.Connect? {
      assert ClientInv(|s.fanned|, s.bc, a.id, s.clients[a.id]);
    }
    if a.Take? {
      TakeKeepsOrder(s.clients[a.id]);
    }
  }

  lemma PeerKeepsGroup(s: Hub, a: Action)
    requires Inv(s) && Enabled(s, a) && (a.Take? || a.Stop? || a.Connect?)
    ensures RegisteredIds(Next(s, a).clients) == RegisteredIds(s.clients)
  {
  }

  lemma PeerKeepsInv(s: Hub, a: Action)
    requires Inv(s) && Enabled(s, a) && (a.Take? || a.Stop? || a.Connect?)
    ensures Inv(Next(s, a))
  {
    var t := Next(s, a);
    if t != s {
      PeerKeepsClient(s, a);
      PeerKeepsGroup(s, a);
      OneClientKeepsInv(s, t, a.id);
    }
  }

  /** Every action keeps the invariant. */
  lemma StepKeepsInv(s: Hub, a: Action)
    requires Inv(s) && Enabled(s, a)
    ensures Inv(Next(s, a))
  {
    match a
    case Publish => TransitKeepsInv(s, a);
    case Unblock => TransitKeepsInv(s, a);
    case Receive => TransitKeepsInv(s, a);
    case Lock => LockKeepsInv(s);
    case TrySend(id) => EnqueueKeepsInv(s, a, id);
    case Drain => EnqueueKeepsInv(s, a, s.bc.at);
    case FinalSend => EnqueueKeepsInv(s, a, s.bc.at);
    case Unlock => UnlockKeepsInv(s);
    case Connect(_) => PeerKeepsInv(s, a);
    case Register(id) => RegisterKeepsInv(s, id);
    case Unregister(id) => UnregisterKeepsInv(s, id);
    case Take(_, _) => PeerKeepsInv(s, a);
    case Stop(_) => PeerKeepsInv(s, a);
  }
}
