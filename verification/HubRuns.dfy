/** What the fan-out protocol guarantees over whole runs. */
module HubRuns {
  import opened HubProtocol

  /** A run of the hub: every state follows from the one before by an enabled action. */
  ghost predicate IsRun(maxClients: int, states: seq<Hub>, acts: seq<Action>) {
    && |states| == |acts| + 1
    && states[0] == NewHub(maxClients)
    && forall i {:trigger acts[i]} | 0 <= i < |acts| :: Enabled(states[i], acts[i]) && states[i + 1] == Next(states[i], acts[i])
  }

  lemma {:induction false} RunKeepsInv(maxClients: int, states: seq<Hub>, acts: seq<Action>, i: nat)
    requires IsRun(maxClients, states, acts) && i < |states|
    ensures Inv(states[i])
    ensures states[i].maxClients == maxClients
    decreases i
  {
    if i == 0 {
      assert [] + InTransit(states[0]) == Upto(0);
      assert RegisteredIds(states[0].clients) == {};
    } else {
      RunKeepsInv(maxClients, states, acts, i - 1);
      StepKeepsInv(states[i - 1], acts[i - 1]);
    }
  }

  /** A client that has registered, and may since have been unregistered. */
  predicate Member(c: Client) {
    c.phase.Registered? || c.phase.Unregistered?
  }

  /** `d` is `c` later on: it has taken what `c` had, and perhaps more. */
  predicate Continues(c: Client, d: Client) {
    c.taken <= d.taken && c.mark == d.mark && Member(d)
  }

  lemma StepContinues(s: Hub, a: Action, id: ClientId)
    requires Enabled(s, a) && id in s.clients && Member(s.clients[id])
    ensures id in Next(s, a).clients && Continues(s.clients[id], Next(s, a).clients[id])
  {
  }

  lemma {:induction false} MemberContinues(maxClients: int, states: seq<Hub>, acts: seq<Action>, i: nat, j: nat, id: ClientId)
    requires IsRun(maxClients, states, acts) && i <= j < |states|
    requires id in states[i].clients && Member(states[i].clients[id])
    ensures id in states[j].clients && Continues(states[i].clients[id], states[j].clients[id])
    decreases j
  {
    if i < j {
      MemberContinues(maxClients, states, acts, i, j - 1, id);
      StepContinues(states[j - 1], acts[j - 1], id);
    }
  }

  /** A client that registered at step `k` has, at every later point `j`, received a
      strictly increasing series of fanned-out frames, none older than the one last
      fanned out when it registered, and keeps what it has received: no rollback, no
      duplicate. */
  lemma DeliveryInOrder(maxClients: int, states: seq<Hub>, acts: seq<Action>, k: nat, i: nat, j: nat, id: ClientId)
    requires IsRun(maxClients, states, acts) && k < i <= j < |states|
    requires acts[k] == Register(id) && states[k + 1].clients[id].phase.Registered?
    ensures id in states[i].clients && id in states[j].clients
    ensures states[i].clients[id].taken <= states[j].clients[id].taken
    ensures Increasing(states[j].clients[id].taken)
    ensures forall f | f in states[j].clients[id].taken ::
              |states[k].fanned| <= f + 1 && f in states[j].fanned && f < states[j].published
  {
    MemberContinues(maxClients, states, acts, k + 1, i, id);
    MemberContinues(maxClients, states, acts, i, j, id);
    RunKeepsInv(maxClients, states, acts, j);
    var s := states[j];
    assert ClientInv(|s.fanned|, s.bc, id, s.clients[id]);
    FannedIsNumbered(s);
    assert |s.fanned| <= |Upto(s.published)|;
    forall f | f in s.clients[id].taken ensures f in s.fanned {
      assert s.fanned[f] == f;
    }
  }

  /** Whenever the lock is free, a registered client has the last frame fanned out:
      it waits in the buffer or is the last one its write pump took. */
  lemma LatestIsPending(maxClients: int, states: seq<Hub>, acts: seq<Action>, j: nat, id: ClientId)
    requires IsRun(maxClients, states, acts) && j < |states|
    requires LockFree(states[j]) && id in states[j].clients && states[j].clients[id].phase.Registered?
    ensures var s, c := states[j], states[j].clients[id];
            match s.lastFanned
            case None => c.buf == [] && c.taken == []
            case Some(f) => c.buf == [f] || (c.buf == [] && c.taken != [] && c.taken[|c.taken| - 1] == f)
  {
    RunKeepsInv(maxClients, states, acts, j);
    assert ClientInv(|states[j].fanned|, states[j].bc, id, states[j].clients[id]);
    if states[j].lastFanned.Some? {
      LastFannedNumber(states[j]);
    }
  }

  /** In no reachable state has a send hit a closed channel, a channel been closed
      twice, the seeding send found a full buffer or enqueue dropped the new frame;
      and the connection cap holds. */
  lemma NeverFaults(maxClients: int, states: seq<Hub>, acts: seq<Action>, j: nat)
    requires IsRun(maxClients, states, acts) && j < |states|
    ensures !states[j].fault
    ensures maxClients > 0 ==> |RegisteredIds(states[j].clients)| <= maxClients
  {
    RunKeepsInv(maxClients, states, acts, j);
  }

  /** Every published frame has been fanned out, in order, or is still in transit:
      none lost, none reordered. */
  lemma NothingLost(maxClients: int, states: seq<Hub>, acts: seq<Action>, j: nat)
    requires IsRun(maxClients, states, acts) && j < |states|
    ensures states[j].fanned + InTransit(states[j]) == Upto(states[j].published)
    ensures |InTransit(states[j])| <= 3
  {
    RunKeepsInv(maxClients, states, acts, j);
  }

  /** Once ready, always ready; and frames fanned out stay fanned out. */
  lemma {:induction false} ReadyStays(maxClients: int, states: seq<Hub>, acts: seq<Action>, i: nat, j: nat)
    requires IsRun(maxClients, states, acts) && i <= j < |states|
    ensures Ready(states[i]) ==> Ready(states[j])
    ensures states[i].fanned <= states[j].fanned
    decreases j
  {
    if i < j {
      ReadyStays(maxClients, states, acts, i, j - 1);
      assert Enabled(states[j - 1], acts[j - 1]);
    }
  }

  /** The write pump of a client that has registered has stopped. */
  predicate PumpStopped(s: Hub, id: ClientId) {
    id in s.clients && !s.clients[id].pumping && (s.clients[id].phase.Registered? || s.clients[id].phase.Unregistered?)
  }

  /** After a write that fails, or once it has stopped, it takes no more frames. */
  lemma {:induction false} StoppedPumpTakesNothing(maxClients: int, states: seq<Hub>, acts: seq<Action>, k: nat, j: nat, id: ClientId)
    requires IsRun(maxClients, states, acts) && k < j < |states| && (acts[k] == Take(id, false) || acts[k] == Stop(id))
    ensures PumpStopped(states[j], id) && states[j].clients[id].taken == states[k + 1].clients[id].taken
    decreases j
  {
    assert Enabled(states[j - 1], acts[j - 1]) && states[j] == Next(states[j - 1], acts[j - 1]);
    if k < j - 1 {
      StoppedPumpTakesNothing(maxClients, states, acts, k, j - 1, id);
    } else {
      RunKeepsInv(maxClients, states, acts, k);
      assert ClientInv(|states[k].fanned|, states[k].bc, id, states[k].clients[id]);
    }
  }

  // ----- the broadcaster never waits for a client -----

  /** How many channel operations the current fan-out still takes, at most. */
  function Work(s: Hub): nat {
    match s.bc
    case Ranging(_, todo) => 3 * |todo| + 1
    case Full(_, _, todo) => 3 * |todo| + 3
    case Drained(_, _, todo) => 3 * |todo| + 2
    case _ => 0
  }

  predicate ByBroadcaster(a: Action) {
    a.Lock? || a.TrySend? || a.Drain? || a.FinalSend? || a.Unlock?
  }

  /** While the broadcaster holds the lock it always has a step to take, whatever
      the clients do. */
  lemma BroadcasterNeverBlocks(s: Hub)
    requires Inv(s) && !LockFree(s)
    ensures exists a :: ByBroadcaster(a) && Enabled(s, a)
  {
    match s.bc
    case Ranging(_, todo) =>
      if todo == {} {
        assert ByBroadcaster(Unlock) && Enabled(s, Unlock);
      } else {
        var id :| id in todo;
        assert id in RegisteredIds(s.clients);
        assert ByBroadcaster(TrySend(id)) && Enabled(s, TrySend(id));
      }
    case Full(_, at, _) => assert ByBroadcaster(Drain) && Enabled(s, Drain);
    case Drained(_, at, _) => assert ByBroadcaster(FinalSend) && Enabled(s, FinalSend);
  }

  /** Each of its steps brings the release of the lock closer, and nobody else's
      step moves it. */
  lemma FanOutTerminates(s: Hub, a: Action)
    requires Inv(s) && !LockFree(s) && Enabled(s, a)
    ensures if ByBroadcaster(a) then Work(Next(s, a)) < Work(s) else Next(s, a).bc == s.bc
  {
  }

  function CountBroadcaster(acts: seq<Action>): nat {
    if acts == [] then 0 else CountBroadcaster(acts[..|acts| - 1]) + if ByBroadcaster(acts[|acts| - 1]) then 1 else 0
  }

  /** So in every run, however the other goroutines act and however slow the clients,
      the broadcaster gives the lock up within three steps per client and one more. */
  lemma LockIsGivenUp(maxClients: int, states: seq<Hub>, acts: seq<Action>, i: nat, j: nat)
    requires IsRun(maxClients, states, acts) && i <= j < |states|
    requires states[i].bc.Ranging? && forall k | i <= k < j :: !LockFree(states[k])
    ensures CountBroadcaster(acts[i..j]) + Work(states[j]) <= Work(states[i]) == 3 * |states[i].bc.todo| + 1
  {
    forall k | i <= k < j ensures Works(states, acts, k) {
      StepWorks(maxClients, states, acts, k);
    }
    Countdown(states, acts, i, j);
  }

  /** The k-th action takes from the work that is left if it is the broadcaster's. */
  predicate Works(states: seq<Hub>, acts: seq<Action>, k: nat)
    requires k < |acts| < |states|
  {
    Work(states[k + 1]) + (if ByBroadcaster(acts[k]) then 1 else 0) <= Work(states[k])
  }

  lemma StepWorks(maxClients: int, states: seq<Hub>, acts: seq<Action>, k: nat)
    requires IsRun(maxClients, states, acts) && k < |acts| && !LockFree(states[k])
    ensures Works(states, acts, k)
  {
    RunKeepsInv(maxClients, states, acts, k);
    assert Enabled(states[k], acts[k]);
    FanOutTerminates(states[k], acts[k]);
  }

  lemma {:induction false} Countdown(states: seq<Hub>, acts: seq<Action>, i: nat, j: nat)
    requires i <= j <= |acts| < |states| && forall k | i <= k < j :: Works(states, acts, k)
    ensures CountBroadcaster(acts[i..j]) + Work(states[j]) <= Work(states[i])
    decreases j
  {
    if i < j {
      Countdown(states, acts, i, j - 1);
      assert Works(states, acts, j - 1);
      assert acts[i..j][..j - 1 - i] == acts[i..j - 1];
    }
  }

  // ----- who is refused -----

  /** How many clients are connected. */
  function Members(s: Hub): nat {
    |set id | id in s.clients && s.clients[id].phase.Registered?|
  }

  lemma MembersAreRegistered(s: Hub)
    ensures Members(s) == |RegisteredIds(s.clients)|
  {
    assert (set id | id in s.clients && s.clients[id].phase.Registered?) == RegisteredIds(s.clients);
  }

  /** Registering is refused exactly when there is a positive cap and as many clients are
      connected. */
  lemma RefusedExactlyWhenFull(maxClients: int, states: seq<Hub>, acts: seq<Action>, k: nat, id: ClientId)
    requires IsRun(maxClients, states, acts) && k < |acts| && acts[k] == Register(id)
    ensures id in states[k + 1].clients
    ensures if maxClients > 0 && Members(states[k]) == maxClients
            then states[k + 1].clients[id].phase == Rejected && Members(states[k + 1]) == Members(states[k])
            else states[k + 1].clients[id].phase == Registered && Members(states[k + 1]) == Members(states[k]) + 1
  {
    RunKeepsInv(maxClients, states, acts, k);
    assert Enabled(states[k], acts[k]) && states[k + 1] == DoRegister(states[k], id);
    RegisterOutcome(states[k], id);
  }

  lemma RegisterOutcome(s: Hub, id: ClientId)
    requires CapacityInv(s) && Enabled(s, Register(id))
    ensures var t := DoRegister(s, id);
            id in t.clients &&
            if s.maxClients > 0 && Members(s) == s.maxClients
            then t.clients[id].phase == Rejected && Members(t) == Members(s)
            else t.clients[id].phase == Registered && Members(t) == Members(s) + 1
  {
    var t := DoRegister(s, id);
    MembersAreRegistered(s);
    MembersAreRegistered(t);
    if AtCapacity(s) {
      assert RegisteredIds(t.clients) == RegisteredIds(s.clients);
    } else {
      assert RegisteredIds(t.clients) == RegisteredIds(s.clients) + {id};
    }
  }

  /** So is a connection before its upgrade. */
  lemma TurnedAwayExactlyWhenFull(maxClients: int, states: seq<Hub>, acts: seq<Action>, k: nat, id: ClientId)
    requires IsRun(maxClients, states, acts) && k < |acts| && acts[k] == Connect(id)
    ensures if maxClients > 0 && Members(states[k]) == maxClients then states[k + 1] == states[k]
            else id in states[k + 1].clients && states[k + 1].clients[id].phase == Upgraded
  {
    var s := states[k];
    assert Enabled(s, acts[k]) && states[k + 1] == Next(s, acts[k]);
    RunKeepsInv(maxClients, states, acts, k);
    MembersAreRegistered(s);
  }

  /** A client that leaves makes room, once, and its write pump is told. */
  lemma LeavingMakesRoom(maxClients: int, states: seq<Hub>, acts: seq<Action>, k: nat, id: ClientId)
    requires IsRun(maxClients, states, acts) && k < |acts| && acts[k] == Unregister(id)
    ensures id in states[k].clients && id in states[k + 1].clients
    ensures if states[k].clients[id].phase == Registered
            then states[k + 1].clients[id].closed && Members(states[k + 1]) == Members(states[k]) - 1
            else states[k + 1] == states[k]
  {
    var s, t := states[k], states[k + 1];
    assert Enabled(s, acts[k]) && t == DoUnregister(s, id);
    MembersAreRegistered(s);
    MembersAreRegistered(t);
    if s.clients[id].phase.Registered? {
      assert RegisteredIds(t.clients) == RegisteredIds(s.clients) - {id};
    }
  }

  predicate NoneRejected(s: Hub) {
    forall id | id in s.clients :: !s.clients[id].phase.Rejected?
  }

  /** A hub without a positive cap refuses nobody. */
  lemma {:induction false} UncappedRefusesNobody(maxClients: int, states: seq<Hub>, acts: seq<Action>, i: nat)
    requires IsRun(maxClients, states, acts) && i < |states| && maxClients <= 0
    ensures NoneRejected(states[i])
    ensures i > 0 && acts[i - 1].Connect? ==> acts[i - 1].id in states[i].clients
    decreases i
  {
    if i > 0 {
      UncappedRefusesNobody(maxClients, states, acts, i - 1);
      RunKeepsInv(maxClients, states, acts, i - 1);
      assert Enabled(states[i - 1], acts[i - 1]) && states[i] == Next(states[i - 1], acts[i - 1]);
    }
  }

  lemma OneMore(maxClients: int, states: seq<Hub>, acts: seq<Action>, a: Action) returns (states': seq<Hub>, acts': seq<Action>)
    requires IsRun(maxClients, states, acts) && Enabled(states[|acts|], a)
    ensures IsRun(maxClients, states', acts') && |acts'| == |acts| + 1 && acts'[|acts|] == a
    ensures states'[|acts|] == states[|acts|] && states'[|acts'|] == Next(states[|acts|], a)
  {
    states', acts' := states + [Next(states[|acts|], a)], acts + [a];
    forall i | 0 <= i < |acts'| ensures Enabled(states'[i], acts'[i]) && states'[i + 1] == Next(states'[i], acts'[i]) {
      if i < |acts| {
        assert acts'[i] == acts[i];
      }
    }
  }

  /** A connection and its registration, below the cap. */
  lemma OneJoins(maxClients: int, states: seq<Hub>, acts: seq<Action>, id: ClientId) returns (states': seq<Hub>, acts': seq<Action>)
    requires IsRun(maxClients, states, acts) && var s := states[|acts|]; LockFree(s) && id !in s.clients
    requires maxClients <= 0 || Members(states[|acts|]) < maxClients
    ensures IsRun(maxClients, states', acts')
    ensures var s, t := states[|acts|], states'[|acts'|];
            t.bc == s.bc && t.clients.Keys == s.clients.Keys + {id} && Members(t) == Members(s) + 1
  {
    var s := states[|acts|];
    states', acts' := OneMore(maxClients, states, acts, Connect(id));
    TurnedAwayExactlyWhenFull(maxClients, states', acts', |acts|, id);
    var mid := states'[|acts'|];
    MembersAreRegistered(s);
    MembersAreRegistered(mid);
    assert RegisteredIds(mid.clients) == RegisteredIds(s.clients);
    states', acts' := OneMore(maxClients, states', acts', Register(id));
    RefusedExactlyWhenFull(maxClients, states', acts', |acts'| - 1, id);
  }

  /** Every place under a positive cap can be taken, and without a cap any number. */
  lemma {:induction false} PlacesCanBeTaken(maxClients: int, n: nat) returns (states: seq<Hub>, acts: seq<Action>)
    requires maxClients <= 0 || n <= maxClients
    ensures IsRun(maxClients, states, acts) && Members(states[|acts|]) == n
    ensures states[|acts|].bc.Waiting? && forall id | id in states[|acts|].clients :: id < n
    decreases n
  {
    if n == 0 {
      states, acts := [NewHub(maxClients)], [];
      MembersAreRegistered(NewHub(maxClients));
      assert RegisteredIds(NewHub(maxClients).clients) == {};
    } else {
      states, acts := PlacesCanBeTaken(maxClients, n - 1);
      states, acts := OneJoins(maxClients, states, acts, n - 1);
    }
  }

  /** The hub is ready exactly if a frame has been fanned out, and knows the last one. */
  lemma ReadyExactly(maxClients: int, states: seq<Hub>, acts: seq<Action>, i: nat)
    requires IsRun(maxClients, states, acts) && i < |states|
    ensures Ready(states[i]) <==> states[i].fanned != []
    ensures Ready(states[i]) ==> states[i].lastFanned.value == states[i].fanned[|states[i].fanned| - 1]
  {
    RunKeepsInv(maxClients, states, acts, i);
  }
}
