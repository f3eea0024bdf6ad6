/** docker.Hub as an object: the methods that update its fields under the lock,
    each proved to perform one action of the protocol, and the fan-out loop with
    the other goroutines running in between. */
module HubObject {
  import opened Text
  import opened HubProtocol

  /** The same frames fanned out, the same clients registered. */
  predicate SameGroup(s: Hub, t: Hub) {
    t.fanned == s.fanned && t.lastFanned == s.lastFanned && RegisteredIds(t.clients) == RegisteredIds(s.clients)
  }

  /** The actions that need no lock. */
  predicate Unlocked(a: Action) {
    a.Take? || a.Stop? || a.Publish? || a.Unblock?
  }

  class FanOutHub {
    const maxClients: int
    var clients: map<ClientId, Client>
    var lastFanned: Option<Frame>
    var broadcast: seq<Frame>
    var blocked: Option<Frame>
    var published: nat
    var fanned: seq<Frame>
    var bc: Broadcaster
    var fault: bool

    function State(): Hub
      reads this
    {
      Hub(maxClients, clients, lastFanned, fanned, broadcast, blocked, published, bc, fault)
    }

    constructor (maxClients: int)
      ensures State() == NewHub(maxClients) && Inv(State())
    {
      this.maxClients := maxClients;
      clients, lastFanned, fanned, broadcast := map[], None, [], [];
      blocked, published, bc, fault := None, 0, Waiting, false;
      new;
      assert [] + InTransit(State()) == Upto(0);
      assert RegisteredIds(clients) == {};
    }

    method IsReady() returns (ready: bool)
      ensures ready <==> Ready(State())
      ensures Inv(State()) ==> (ready <==> fanned != [])
    {
      ready := lastFanned != None;
    }

    method IsAtCapacity() returns (full: bool)
      ensures full <==> AtCapacity(State())
      ensures full <==> maxClients > 0 && |RegisteredIds(clients)| >= maxClients
    {
      if maxClients <= 0 {
        return false;
      }
      full := |RegisteredIds(clients)| >= maxClients;
    }

    method Register(id: ClientId) returns (ok: bool)
      requires Inv(State()) && Enabled(State(), Action.Register(id))
      modifies this
      ensures State() == Next(old(State()), Action.Register(id)) && Inv(State())
      ensures ok <==> clients[id].phase.Registered?
      ensures ok <==> maxClients <= 0 || |old(RegisteredIds(clients))| < maxClients
    {
      StepKeepsInv(State(), Action.Register(id));
      var c := clients[id];
      if maxClients > 0 && |RegisteredIds(clients)| >= maxClients {
        clients := clients[id := c.(phase := Rejected)];
        return false;
      }
      clients := clients[id := c.(phase := Registered, pumping := true, mark := |fanned|)];
      if lastFanned != None {
        fault := fault || c.closed || c.buf != [];
        clients := clients[id := Send(clients[id], lastFanned.value)];
      }
      return true;
    }

    method Unregister(id: ClientId)
      requires Inv(State()) && Enabled(State(), Action.Unregister(id))
      modifies this
      ensures State() == Next(old(State()), Action.Unregister(id)) && Inv(State())
      ensures RegisteredIds(clients) == old(RegisteredIds(clients)) - {id}
      ensures old(clients[id].phase.Registered?) ==> clients[id].closed
    {
      StepKeepsInv(State(), Action.Unregister(id));
      var c := clients[id];
      if c.phase.Registered? {
        fault := fault || c.closed;
        clients := clients[id := c.(phase := Unregistered, closed := true)];
      }
    }

    /** One step of a goroutine that does not need the lock. */
    method Other(a: Action)
      requires Inv(State()) && Enabled(State(), a) && Unlocked(a)
      modifies this
      ensures State() == Next(old(State()), a) && Inv(State())
      ensures bc == old(bc) && SameGroup(old(State()), State())
    {
      StepKeepsInv(State(), a);
      var t := Next(State(), a);
      assert RegisteredIds(t.clients) == RegisteredIds(clients);
      clients, broadcast, blocked, published := t.clients, t.chan, t.blocked, t.published;
      assert State() == t;
    }

    /** Any number of steps of the goroutines that do not need the lock: write pumps
        receiving or stopping, the publisher publishing. */
    method Others()
      requires Inv(State())
      modifies this
      ensures Inv(State())
      ensures bc == old(bc) && SameGroup(old(State()), State())
    {
      var n: nat := *;
      while n > 0
        invariant Inv(State())
        invariant bc == old(bc) && SameGroup(old(State()), State())
      {
        var a: Action := *;
        if Unlocked(a) && Enabled(State(), a) {
          Other(a);
        }
        n := n - 1;
      }
    }

    /** The first select of enqueue: send, unless the buffer is full. */
    method TrySendTo(id: ClientId)
      requires Inv(State()) && Enabled(State(), TrySend(id))
      modifies this
      ensures State() == Next(old(State()), TrySend(id)) && Inv(State())
      ensures SameGroup(old(State()), State())
      ensures bc == if old(clients[id].buf) == [] then Ranging(old(bc.msg), old(bc.todo) - {id}) else Full(old(bc.msg), id, old(bc.todo) - {id})
    {
      StepKeepsInv(State(), TrySend(id));
      var c := clients[id];
      fault := fault || c.closed;
      clients := clients[id := Send(c, bc.msg)];
      bc := if c.buf == [] then Ranging(bc.msg, bc.todo - {id}) else Full(bc.msg, id, bc.todo - {id});
    }

    /** The second select: drop the stale frame, if the pump has not just taken it. */
    method DrainStale()
      requires Inv(State()) && Enabled(State(), Drain)
      modifies this
      ensures State() == Next(old(State()), Drain) && Inv(State())
      ensures SameGroup(old(State()), State())
      ensures bc == Drained(old(bc.msg), old(bc.at), old(bc.todo))
    {
      StepKeepsInv(State(), Drain);
      clients := clients[bc.at := clients[bc.at].(buf := [])];
      bc := Drained(bc.msg, bc.at, bc.todo);
    }

    /** The third select: send into the emptied buffer. */
    method SendLatest()
      requires Inv(State()) && Enabled(State(), FinalSend)
      modifies this
      ensures State() == Next(old(State()), FinalSend) && Inv(State())
      ensures SameGroup(old(State()), State())
      ensures bc == Ranging(old(bc.msg), old(bc.todo))
    {
      StepKeepsInv(State(), FinalSend);
      var c := clients[bc.at];
      fault := fault || c.closed || c.buf != [];
      clients := clients[bc.at := Send(c, bc.msg)];
      bc := Ranging(bc.msg, bc.todo);
    }

    /** The default branch of enqueue. */
    method ReplaceStale()
      requires Inv(State()) && bc.Full?
      modifies this
      ensures Inv(State()) && SameGroup(old(State()), State())
      ensures bc == Ranging(old(bc.msg), old(bc.todo))
    {
      Others();
      assert bc.at in RegisteredIds(clients);
      DrainStale();
      Others();
      assert bc.at in RegisteredIds(clients);
      SendLatest();
    }

    /** enqueue: three selects, with the other goroutines running before each. */
    method Enqueue(id: ClientId)
      requires Inv(State()) && bc.Ranging? && id in bc.todo
      modifies this
      ensures Inv(State()) && SameGroup(old(State()), State())
      ensures bc == Ranging(old(bc.msg), old(bc.todo) - {id})
    {
      Others();
      assert id in RegisteredIds(clients);
      TrySendTo(id);
      if bc.Full? {
        ReplaceStale();
      }
    }

    /** Take the lock, record the frame, start ranging over the clients. */
    method BeginFanOut()
      requires Inv(State()) && bc.Received?
      modifies this
      ensures State() == Next(old(State()), Lock) && Inv(State())
    {
      StepKeepsInv(State(), Lock);
      lastFanned, fanned, bc := Some(bc.msg), fanned + [bc.msg], Ranging(bc.msg, RegisteredIds(clients));
    }

    /** Release the lock: nobody has been left out. */
    method EndFanOut()
      requires Inv(State()) && bc.Ranging? && bc.todo == {}
      modifies this
      ensures State() == Next(old(State()), Unlock) && Inv(State())
      ensures forall id | id in RegisteredIds(clients) :: UpToDate(clients[id], |fanned|)
    {
      StepKeepsInv(State(), Unlock);
      bc := Waiting;
    }

    /** One turn of runBroadcasts: whatever the other goroutines do meanwhile, every
        registered client ends up with the frame waiting or already taken. */
    method FanOut()
      requires Inv(State()) && bc.Received?
      modifies this
      ensures Inv(State()) && bc.Waiting?
      ensures lastFanned == Some(old(bc.msg)) && fanned == old(fanned) + [old(bc.msg)]
      ensures RegisteredIds(clients) == old(RegisteredIds(clients))
      ensures forall id | id in RegisteredIds(clients) :: UpToDate(clients[id], |fanned|)
    {
      var msg := bc.msg;
      BeginFanOut();
      while bc.todo != {}
        invariant Inv(State()) && bc.Ranging? && bc.msg == msg
        invariant lastFanned == Some(msg) && fanned == old(fanned) + [msg]
        invariant RegisteredIds(clients) == old(RegisteredIds(clients))
        decreases bc.todo
      {
        var id :| id in bc.todo;
        Enqueue(id);
      }
      EndFanOut();
    }
  }
}
