/** The poller and the hub together: from what the swarm reports to what a client
    is shown. Frame number `f` of the hub is the `f`-th frame the poller sent. */
module Pipeline {
  import opened Snapshots
  import opened Inspector
  import opened StoppedTasks
  import opened Polling
  import opened Provenance
  import H = HubProtocol
  import HubRuns

  datatype System = System(poller: State, hub: H.Hub)

  /** A step of any goroutine of the hub, or a tick of the poller. */
  datatype Move = HubMove(action: H.Action) | PollMove(tick: Tick)

  /** The poller ticks only when its Publish has returned, and publishes what it sends. */
  ghost predicate Moves(c: Config, s: System, m: Move, t: System) {
    match m
    case HubMove(a) => !a.Publish? && H.Enabled(s.hub, a) && t == s.(hub := H.Next(s.hub, a))
    case PollMove(tick) =>
      && H.Enabled(s.hub, H.Publish)
      && TickTyped(c, tick) && Ticked(c, s.poller, tick, t.poller)
      && t.hub == if |t.poller.sent| > |s.poller.sent| then H.Next(s.hub, H.Publish) else s.hub
  }

  ghost predicate MovesAt(c: Config, states: seq<System>, moves: seq<Move>, i: nat)
    requires i < |moves| < |states|
  {
    Moves(c, states[i], moves[i], states[i + 1])
  }

  ghost predicate IsSystemRun(c: Config, maxClients: int, states: seq<System>, moves: seq<Move>) {
    && c.Ok() && |states| == |moves| + 1
    && states[0] == System(Fresh(), H.NewHub(maxClients))
    && forall i | 0 <= i < |moves| :: MovesAt(c, states, moves, i)
  }

  // ----- a run of the whole, seen by each side -----

  lemma HubRunGrows(maxClients: int, hubs: seq<H.Hub>, acts: seq<H.Action>, a: H.Action)
    requires HubRuns.IsRun(maxClients, hubs, acts) && H.Enabled(hubs[|acts|], a)
    ensures HubRuns.IsRun(maxClients, hubs + [H.Next(hubs[|acts|], a)], acts + [a])
  {
  }

  lemma HubMoves(c: Config, maxClients: int, states: seq<System>, moves: seq<Move>, i: nat) returns (a: H.Action)
    requires IsSystemRun(c, maxClients, states, moves) && i < |moves|
    ensures var s, t := states[i].hub, states[i + 1].hub; t == s || (H.Enabled(s, a) && t == H.Next(s, a))
  {
    assert MovesAt(c, states, moves, i);
    a := if moves[i].HubMove? then moves[i].action else H.Publish;
  }

  lemma {:induction false} HubSide(c: Config, maxClients: int, states: seq<System>, moves: seq<Move>, j: nat)
    returns (hubs: seq<H.Hub>, acts: seq<H.Action>)
    requires IsSystemRun(c, maxClients, states, moves) && j < |states|
    ensures HubRuns.IsRun(maxClients, hubs, acts) && hubs[|acts|] == states[j].hub
    decreases j
  {
    if j == 0 {
      hubs, acts := [states[0].hub], [];
    } else {
      hubs, acts := HubSide(c, maxClients, states, moves, j - 1);
      var a := HubMoves(c, maxClients, states, moves, j - 1);
      if states[j].hub != states[j - 1].hub {
        HubRunGrows(maxClients, hubs, acts, a);
        hubs, acts := hubs + [states[j].hub], acts + [a];
      }
    }
  }

  /** The ticks among the moves. */
  function TicksIn(moves: seq<Move>): seq<Tick> {
    if moves == [] then []
    else TicksIn(moves[..|moves| - 1]) + (if moves[|moves| - 1].PollMove? then [moves[|moves| - 1].tick] else [])
  }

  lemma TicksInGrows(moves: seq<Move>, i: nat)
    requires i < |moves|
    ensures TicksIn(moves[..i + 1]) ==
            if moves[i].PollMove? then TicksIn(moves[..i]) + [moves[i].tick] else TicksIn(moves[..i])
  {
    assert moves[..i + 1][..i] == moves[..i];
  }

  lemma PollerMoves(c: Config, maxClients: int, states: seq<System>, moves: seq<Move>, i: nat)
    requires IsSystemRun(c, maxClients, states, moves) && i < |moves|
    ensures match moves[i]
            case HubMove(_) => states[i + 1].poller == states[i].poller
            case PollMove(tick) => TickTyped(c, tick) && Ticked(c, states[i].poller, tick, states[i + 1].poller)
  {
    assert MovesAt(c, states, moves, i);
  }

  lemma PollerGoesOn(c: Config, maxClients: int, states: seq<System>, moves: seq<Move>, j: nat, polls: seq<State>) returns (polls': seq<State>)
    requires IsSystemRun(c, maxClients, states, moves) && j < |moves|
    requires var ticks := TicksIn(moves[..j]); IsPolling(c, polls, ticks) && polls[|ticks|] == states[j].poller
    ensures var ticks := TicksIn(moves[..j + 1]); IsPolling(c, polls', ticks) && polls'[|ticks|] == states[j + 1].poller
  {
    PollerMoves(c, maxClients, states, moves, j);
    TicksInGrows(moves, j);
    polls' := polls;
    if moves[j].PollMove? {
      PollingGrows(c, polls, TicksIn(moves[..j]), moves[j].tick, states[j + 1].poller);
      polls' := polls + [states[j + 1].poller];
    }
  }

  lemma {:induction false} PollerSide(c: Config, maxClients: int, states: seq<System>, moves: seq<Move>, j: nat)
    returns (polls: seq<State>)
    requires IsSystemRun(c, maxClients, states, moves) && j < |states|
    ensures var ticks := TicksIn(moves[..j]); IsPolling(c, polls, ticks) && polls[|ticks|] == states[j].poller
    decreases j
  {
    if j == 0 {
      polls := [states[0].poller];
    } else {
      polls := PollerSide(c, maxClients, states, moves, j - 1);
      polls := PollerGoesOn(c, maxClients, states, moves, j - 1, polls);
    }
  }

  lemma PollerInv(c: Config, maxClients: int, states: seq<System>, moves: seq<Move>, j: nat)
    requires IsSystemRun(c, maxClients, states, moves) && j < |states|
    ensures Inv(c, states[j].poller)
  {
    var polls := PollerSide(c, maxClients, states, moves, j);
    PollingKeepsInv(c, polls, TicksIn(moves[..j]), |polls| - 1);
  }

  lemma OnlyPublishCounts(s: H.Hub, a: H.Action)
    requires H.Enabled(s, a)
    ensures H.Next(s, a).published == s.published + (if a.Publish? then 1 else 0)
  {
  }

  /** As many frames have been published as sent. */
  lemma {:induction false} FramesMatch(c: Config, maxClients: int, states: seq<System>, moves: seq<Move>, j: nat)
    requires IsSystemRun(c, maxClients, states, moves) && j < |states|
    ensures states[j].hub.published == |states[j].poller.sent|
    decreases j
  {
    if j > 0 {
      FramesMatch(c, maxClients, states, moves, j - 1);
      NextFrameMatches(c, maxClients, states, moves, j - 1);
    }
  }

  lemma NextFrameMatches(c: Config, maxClients: int, states: seq<System>, moves: seq<Move>, j: nat)
    requires IsSystemRun(c, maxClients, states, moves) && j < |moves|
    requires states[j].hub.published == |states[j].poller.sent|
    ensures states[j + 1].hub.published == |states[j + 1].poller.sent|
  {
    assert MovesAt(c, states, moves, j);
    var s, t := states[j], states[j + 1];
    match moves[j]
    case HubMove(a) => OnlyPublishCounts(s.hub, a);
    case PollMove(tick) =>
      PollerInv(c, maxClients, states, moves, j);
      TickSends(c, s.poller, tick, t.poller);
      OnlyPublishCounts(s.hub, H.Publish);
  }

  // ----- end to end -----

  /** Whenever the hub is at rest, every registered client has been handed, or has
      waiting for it, the snapshot that the poller compares against, which still
      shows what was sent. */
  lemma ClientsShowTheLastSnapshot(c: Config, maxClients: int, states: seq<System>, moves: seq<Move>, j: nat, id: H.ClientId)
    requires IsSystemRun(c, maxClients, states, moves) && j < |states|
    requires H.LockFree(states[j].hub) && H.InTransit(states[j].hub) == []
    requires id in states[j].hub.clients && states[j].hub.clients[id].phase.Registered?
    ensures var s, client := states[j].poller, states[j].hub.clients[id];
            if s.last.None? then client.buf == [] && client.taken == []
            else
              var f := |s.sent| - 1;
              && f >= 0 && s.sent[f] == SnapContent(s.store, s.last.value)
              && (client.buf == [f] || (client.buf == [] && client.taken != [] && client.taken[|client.taken| - 1] == f))
  {
    var hubs, acts := HubSide(c, maxClients, states, moves, j);
    FramesMatch(c, maxClients, states, moves, j);
    PollerInv(c, maxClients, states, moves, j);
    HubRuns.LatestIsPending(maxClients, hubs, acts, |acts|, id);
    HubRuns.RunKeepsInv(maxClients, hubs, acts, |acts|);
    assert |states[j].hub.fanned| == |states[j].poller.sent|;
    if states[j].hub.lastFanned.Some? {
      H.LastFannedNumber(states[j].hub);
    }
    assert FrameInv(c, states[j].poller);
  }

  /** Whatever a client has been handed is a frame the poller sent: the redaction of
      one complete structural round and of the tasks one poll showed, both ticks of
      this run. */
  lemma ClientsSeeRedactionsOnly(c: Config, maxClients: int, states: seq<System>, moves: seq<Move>, j: nat, id: H.ClientId, f: H.Frame)
    returns (polls: seq<State>, k: nat, r: nat, q: nat, shown: seq<Task>)
    requires IsSystemRun(c, maxClients, states, moves) && j < |states|
    requires id in states[j].hub.clients && f in states[j].hub.clients[id].taken
    ensures f < |states[j].poller.sent|
    ensures var ticks := TicksIn(moves[..j]);
            && IsPolling(c, polls, ticks) && k < |ticks|
            && Origin(c, polls, ticks, states[j].poller.sent[f], k, r, q, shown, polls[k + 1].rawTasks)
  {
    var hubs, acts := HubSide(c, maxClients, states, moves, j);
    polls := PollerSide(c, maxClients, states, moves, j);
    FramesMatch(c, maxClients, states, moves, j);
    HubRuns.RunKeepsInv(maxClients, hubs, acts, |acts|);
    TakenWasPublished(states[j].hub, id, f);
    k, r, q, shown := FrameHasOrigin(c, polls, TicksIn(moves[..j]), |polls| - 1, f);
  }

  lemma TakenWasPublished(s: H.Hub, id: H.ClientId, f: H.Frame)
    requires H.Inv(s) && id in s.clients && f in s.clients[id].taken
    ensures f < s.published
  {
  }
}
