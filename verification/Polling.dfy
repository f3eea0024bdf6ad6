/** The loop of docker.inspectSwarmServices over any series of ticks: the poller as
    an object, and what holds of the frames it sends over whole runs. */
module Polling {
  import opened Text
  import opened Values
  import opened Snapshots
  import opened StoppedTasks
  import opened Inspector

  /** A tick of either ticker, and what the fetches it starts return. `marshals` tells
      whether the JSON encoder succeeds. */
  datatype Tick =
    | TaskTick(fetched: Option<seq<FetchedTask>>, now: int, marshals: bool)
    | StructuralTick(nodes: Option<Fetched>, services: Option<Fetched>, networks: Option<Fetched>, marshals: bool)

  predicate TickTyped(c: Config, tick: Tick) {
    match tick
    case TaskTick(fetched, _, _) => fetched.Some? ==> TasksTyped(c, fetched.value)
    case StructuralTick(n, s, nw, _) => GroupsTyped(c, n, s, nw)
  }

  predicate Succeeds(tick: Tick) {
    match tick
    case TaskTick(fetched, _, _) => fetched.Some?
    case StructuralTick(n, s, nw, _) => n.Some? && s.Some? && nw.Some?
  }

  /** A structural round in which all three fetches succeeded. */
  predicate CompleteRound(tick: Tick) {
    tick.StructuralTick? && Succeeds(tick)
  }

  predicate CompletePoll(tick: Tick) {
    tick.TaskTick? && Succeeds(tick)
  }

  /** The leading fields of a snapshot, as that round brought them. */
  function RoundValues(c: Config, tick: Tick): seq<Value>
    requires CompleteRound(tick)
  {
    c.header + [tick.networks.value.Raw(), tick.nodes.value.Raw(), tick.services.value.Raw()]
  }

  /** The tasks that a poll made from state `s` lists. */
  function PolledTasks(s: State, tick: Tick): seq<Task>
    requires CompletePoll(tick)
  {
    Numbering(tick.fetched.value, s.polls)
  }

  /** The variables after a successful refresh. Which order stopped tasks come in, and
      which of those created at the same time, is not determined. */
  ghost predicate Refreshed(c: Config, s: State, tick: Tick, m: State)
    requires Succeeds(tick)
  {
    match tick
    case StructuralTick(n, svc, nw, _) => m == AfterGroups(c, s, n.value, svc.value, nw.value)
    case TaskTick(fetched, now, _) => exists shown :: ShowsTasks(c, s, tick, shown, m)
  }

  predicate ShowsTasks(c: Config, s: State, tick: Tick, shown: seq<Task>, m: State)
    requires CompletePoll(tick)
  {
    && PollShows(Polled(s.cache, PolledTasks(s, tick), tick.now), PolledTasks(s, tick), shown)
    && m == AfterTasks(c, s, tick.fetched.value, tick.now, shown)
  }

  /** From `s` to `t` by one tick: refresh, then publish if that succeeded. */
  ghost predicate Ticked(c: Config, s: State, tick: Tick, t: State) {
    if Succeeds(tick) then exists m :: Refreshed(c, s, tick, m) && t == AfterPublish(c, m, tick.marshals)
    else t == s
  }

  // ----- one tick -----

  lemma PollRefreshes(c: Config, s: State, tick: Tick, shown: seq<Task>)
    requires CompletePoll(tick) && PollShows(Polled(s.cache, PolledTasks(s, tick), tick.now), PolledTasks(s, tick), shown)
    ensures Refreshed(c, s, tick, AfterTasks(c, s, tick.fetched.value, tick.now, shown))
  {
    assert ShowsTasks(c, s, tick, shown, AfterTasks(c, s, tick.fetched.value, tick.now, shown));
  }

  lemma RefreshKeepsInv(c: Config, s: State, tick: Tick, m: State)
    requires Inv(c, s) && TickTyped(c, tick) && Succeeds(tick) && Refreshed(c, s, tick, m)
    ensures Inv(c, m)
  {
    match tick
    case StructuralTick(n, svc, nw, _) => GroupsKeepInv(c, s, n.value, svc.value, nw.value);
    case TaskTick(fetched, now, _) =>
      var shown :| ShowsTasks(c, s, tick, shown, m);
      TasksKeepInv(c, s, fetched.value, now, shown);
  }

  /** Every tick keeps the invariant. */
  lemma TickKeepsInv(c: Config, s: State, tick: Tick, t: State)
    requires Inv(c, s) && TickTyped(c, tick) && Ticked(c, s, tick, t)
    ensures Inv(c, t)
  {
    if Succeeds(tick) {
      var m :| Refreshed(c, s, tick, m) && t == AfterPublish(c, m, tick.marshals);
      RefreshKeepsInv(c, s, tick, m);
      PublishKeepsInv(c, m, tick.marshals);
    }
  }

  /** What a refresh brings, and what it leaves alone. */
  lemma RefreshBrings(c: Config, s: State, tick: Tick, m: State)
    requires Succeeds(tick) && Refreshed(c, s, tick, m)
    ensures m.sent == s.sent && m.last == s.last
    ensures m.haveStructural == (s.haveStructural || CompleteRound(tick))
    ensures m.haveTasks == (s.haveTasks || CompletePoll(tick))
    ensures m.rawLead == if CompleteRound(tick) then RoundValues(c, tick) else s.rawLead
  {
    if tick.StructuralTick? {
      GroupValues(c, tick);
    }
  }

  lemma GroupValues(c: Config, tick: Tick)
    requires CompleteRound(tick)
    ensures RawValues(Groups(c, tick.nodes.value, tick.services.value, tick.networks.value)) == RoundValues(c, tick)
  {
  }

  /** Whether a tick that leads from `s` to `t` finds something new to send. */
  predicate News(c: Config, s: State, tick: Tick, t: State) {
    && Succeeds(tick) && Loaded(t)
    && (s.sent == [] || s.sent[|s.sent| - 1] != RedactedNow(c, t))
  }

  /** What a publish does, seen from the frames. */
  predicate Publishes(c: Config, m: State, marshals: bool, t: State) {
    && t.(store := m.store, last := m.last, sent := m.sent) == m
    && t.sent == if Loaded(m) && marshals && (m.sent == [] || m.sent[|m.sent| - 1] != RedactedNow(c, m))
                 then m.sent + [RedactedNow(c, m)] else m.sent
  }

  lemma PublishSends(c: Config, m: State, marshals: bool)
    requires Inv(c, m)
    ensures Publishes(c, m, marshals, AfterPublish(c, m, marshals))
  {
    if Loaded(m) {
      AssembledShows(c, m);
      ComparisonIsFaithful(c, m);
    }
  }

  lemma RefreshThenPublish(c: Config, s: State, tick: Tick, t: State) returns (m: State)
    requires Inv(c, s) && TickTyped(c, tick) && Succeeds(tick) && Ticked(c, s, tick, t)
    ensures Refreshed(c, s, tick, m) && Publishes(c, m, tick.marshals, t)
  {
    m :| Refreshed(c, s, tick, m) && t == AfterPublish(c, m, tick.marshals);
    RefreshKeepsInv(c, s, tick, m);
    PublishSends(c, m, tick.marshals);
  }

  /** What a tick does, seen from the frames. */
  predicate Sends(c: Config, s: State, tick: Tick, t: State) {
    && t.sent == (if News(c, s, tick, t) && tick.marshals then s.sent + [RedactedNow(c, t)] else s.sent)
    && t.haveStructural == (s.haveStructural || CompleteRound(tick))
    && t.haveTasks == (s.haveTasks || CompletePoll(tick))
    && t.rawLead == if CompleteRound(tick) then RoundValues(c, tick) else s.rawLead
  }

  lemma RefreshedSends(c: Config, s: State, tick: Tick, m: State, t: State)
    requires Succeeds(tick) && Refreshed(c, s, tick, m) && Publishes(c, m, tick.marshals, t)
    ensures Sends(c, s, tick, t)
  {
    RefreshBrings(c, s, tick, m);
    assert RedactedNow(c, m) == RedactedNow(c, t);
  }

  /** The comparison of shared memory sends a frame exactly when there is news, and the
      frame is the redaction of what was fetched. */
  lemma TickSends(c: Config, s: State, tick: Tick, t: State)
    requires Inv(c, s) && TickTyped(c, tick) && Ticked(c, s, tick, t)
    ensures Sends(c, s, tick, t)
  {
    if Succeeds(tick) {
      var m := RefreshThenPublish(c, s, tick, t);
      RefreshedSends(c, s, tick, m, t);
    }
  }

  // ----- runs -----

  /** A run of the poller: the ticks, and the states between them. With a sensitive path
      on which the clearer panics (PathWalk.Permitted) the server ends at its first
      publish, and only the part of a run before that takes place. */
  ghost predicate IsPolling(c: Config, states: seq<State>, ticks: seq<Tick>) {
    && |states| == |ticks| + 1 && states[0] == Fresh()
    && forall i | 0 <= i < |ticks| :: TicksAt(c, states, ticks, i)
  }

  ghost predicate TicksAt(c: Config, states: seq<State>, ticks: seq<Tick>, i: nat)
    requires i < |ticks| < |states|
  {
    TickTyped(c, ticks[i]) && Ticked(c, states[i], ticks[i], states[i + 1])
  }

  lemma PollingGrows(c: Config, states: seq<State>, ticks: seq<Tick>, tick: Tick, t: State)
    requires IsPolling(c, states, ticks) && TickTyped(c, tick) && Ticked(c, states[|ticks|], tick, t)
    ensures IsPolling(c, states + [t], ticks + [tick])
  {
    forall i | 0 <= i < |ticks| ensures TicksAt(c, states + [t], ticks + [tick], i) {
      assert TicksAt(c, states, ticks, i);
    }
  }

  /** The invariant holds throughout every run. */
  lemma {:induction false} PollingKeepsInv(c: Config, states: seq<State>, ticks: seq<Tick>, j: nat)
    requires c.Ok() && IsPolling(c, states, ticks) && j < |states|
    ensures Inv(c, states[j])
    decreases j
  {
    if j > 0 {
      PollingKeepsInv(c, states, ticks, j - 1);
      assert TicksAt(c, states, ticks, j - 1);
      TickKeepsInv(c, states[j - 1], ticks[j - 1], states[j]);
    }
  }

  lemma StepSends(c: Config, states: seq<State>, ticks: seq<Tick>, j: nat)
    requires c.Ok() && IsPolling(c, states, ticks) && 0 < j < |states|
    ensures Sends(c, states[j - 1], ticks[j - 1], states[j])
  {
    TickOfRun(c, states, ticks, j - 1);
    TickSends(c, states[j - 1], ticks[j - 1], states[j]);
  }

  lemma TickOfRun(c: Config, states: seq<State>, ticks: seq<Tick>, j: nat)
    requires c.Ok() && IsPolling(c, states, ticks) && j < |ticks|
    ensures Inv(c, states[j]) && TickTyped(c, ticks[j]) && Ticked(c, states[j], ticks[j], states[j + 1])
  {
    PollingKeepsInv(c, states, ticks, j);
    assert TicksAt(c, states, ticks, j);
  }

  /** At every comparison of every run, the last snapshot shows what was sent last,
      although its memory is shared with what has just been redacted. */
  lemma LastIsIntact(c: Config, states: seq<State>, ticks: seq<Tick>, j: nat, m: State)
    requires c.Ok() && IsPolling(c, states, ticks) && j < |ticks|
    requires Succeeds(ticks[j]) && Refreshed(c, states[j], ticks[j], m) && Loaded(m)
    ensures m.last == states[j].last && (m.last.Some? <==> states[j].sent != [])
    ensures m.last.Some? ==> SnapContent(Assembled(c, m).store, m.last.value) == states[j].sent[|states[j].sent| - 1]
  {
    RefreshBrings(c, states[j], ticks[j], m);
    MiddleInv(c, states, ticks, j, m);
    ComparisonIsFaithful(c, m);
  }

  lemma MiddleInv(c: Config, states: seq<State>, ticks: seq<Tick>, j: nat, m: State)
    requires c.Ok() && IsPolling(c, states, ticks) && j < |ticks|
    requires Succeeds(ticks[j]) && Refreshed(c, states[j], ticks[j], m)
    ensures Inv(c, m)
  {
    PollingKeepsInv(c, states, ticks, j);
    assert TicksAt(c, states, ticks, j);
    RefreshKeepsInv(c, states[j], ticks[j], m);
  }

  /** So a snapshot is published exactly when a successful refresh, with both groups
      loaded, changes what there is to show; after that, the last frame sent shows
      the newest data. */
  lemma PublishedWhenChanged(c: Config, states: seq<State>, ticks: seq<Tick>, j: nat)
    requires c.Ok() && IsPolling(c, states, ticks) && j < |ticks| && ticks[j].marshals
    ensures var before, after, now := states[j].sent, states[j + 1].sent, RedactedNow(c, states[j + 1]);
            var news := Succeeds(ticks[j]) && Loaded(states[j + 1]);
            && (|after| > |before| <==> news && (before == [] || before[|before| - 1] != now))
            && (news ==> after != [] && after[|after| - 1] == now)
  {
    StepSends(c, states, ticks, j + 1);
  }

  /** No two frames in a row are equal. */
  lemma {:induction false} ConsecutiveDiffer(c: Config, states: seq<State>, ticks: seq<Tick>, j: nat)
    requires c.Ok() && IsPolling(c, states, ticks) && j < |states|
    ensures forall i | 0 <= i < |states[j].sent| - 1 :: states[j].sent[i] != states[j].sent[i + 1]
    decreases j
  {
    if j > 0 {
      ConsecutiveDiffer(c, states, ticks, j - 1);
      StepSends(c, states, ticks, j);
    }
  }

  /** Frames are sent one at a time and never taken back. */
  lemma {:induction false} SentGrows(c: Config, states: seq<State>, ticks: seq<Tick>, i: nat, j: nat)
    requires c.Ok() && IsPolling(c, states, ticks) && i <= j < |states|
    ensures states[i].sent <= states[j].sent && |states[j].sent| <= |states[i].sent| + j - i
    decreases j
  {
    if i < j {
      SentGrows(c, states, ticks, i, j - 1);
      StepSends(c, states, ticks, j);
    }
  }

  // ----- the object -----

  /** The goroutine of inspectSwarmServices: `vars` are the variables its closures
      share. */
  class Poller {
    const cfg: Config
    var vars: State

    constructor (cfg: Config)
      ensures this.cfg == cfg && vars == Fresh()
    {
      this.cfg, this.vars := cfg, Fresh();
    }

    /** One structural round: all three groups or none. */
    method RefreshStructural(n: Option<Fetched>, s: Option<Fetched>, nw: Option<Fetched>) returns (ok: bool)
      modifies this
      ensures ok <==> n.Some? && s.Some? && nw.Some?
      ensures vars == if ok then AfterGroups(cfg, old(vars), n.value, s.value, nw.value) else old(vars)
    {
      if n.None? || s.None? || nw.None? {
        return false;
      }
      vars := AfterGroups(cfg, vars, n.value, s.value, nw.value);
      return true;
    }

    /** One task poll. */
    method RefreshTasks(fetched: Option<seq<FetchedTask>>, now: int) returns (ok: bool)
      modifies this
      ensures ok <==> fetched.Some?
      ensures if ok then Refreshed(cfg, old(vars), TaskTick(fetched, now, true), vars) else vars == old(vars)
    {
      if fetched.None? {
        return false;
      }
      var t, shown := PollTasks(cfg, vars, fetched.value, now);
      assert ShowsTasks(cfg, vars, TaskTick(fetched, now, true), shown, t);
      vars := t;
      return true;
    }

    /** Assemble, redact in place, compare with the last snapshot, send what changed. */
    method Publish(marshals: bool)
      modifies this
      ensures vars == AfterPublish(cfg, old(vars), marshals)
    {
      if !vars.haveStructural || !vars.haveTasks {
        return;
      }
      var data := RedactInPlace(cfg, vars);
      var last := vars.last;
      vars := vars.(store := data.store);
      if last == None || SnapContent(data.store, data.snap) != SnapContent(data.store, last.value) {
        if !marshals {
          return;
        }
        vars := vars.(last := Some(data.snap), sent := vars.sent + [SnapContent(data.store, data.snap)]);
      }
    }

    /** A branch of the select. */
    method OnTick(tick: Tick)
      modifies this
      ensures Ticked(cfg, old(vars), tick, vars)
    {
      match tick
      case TaskTick(fetched, now, m) =>
        var ok := RefreshTasks(fetched, now);
        if ok {
          SameRefresh(cfg, old(vars), fetched, now, m, vars);
          Publish(m);
        }
      case StructuralTick(n, s, nw, m) =>
        var ok := RefreshStructural(n, s, nw);
        if ok {
          assert Refreshed(cfg, old(vars), tick, vars);
          Publish(m);
        }
    }

    /** The initial fetch: both refreshes, then publish, whatever came of them. It is a
        structural tick and a task tick. */
    method FirstFetch(round: Tick, poll: Tick) returns (ghost mid: State)
      requires vars == Fresh() && round.StructuralTick? && poll.TaskTick?
      modifies this
      ensures Ticked(cfg, Fresh(), round, mid) && Ticked(cfg, mid, poll, vars)
    {
      var ok := RefreshStructural(round.nodes, round.services, round.networks);
      mid := vars;
      if ok {
        assert Refreshed(cfg, Fresh(), round, mid) && mid == AfterPublish(cfg, mid, round.marshals);
      }
      ok := RefreshTasks(poll.fetched, poll.now);
      if ok {
        SameRefresh(cfg, mid, poll.fetched, poll.now, poll.marshals, vars);
      }
      Publish(poll.marshals);
    }

    /** inspectSwarmServices, for any series of ticks. */
    method InspectSwarmServices(round: Tick, poll: Tick, ticks: seq<Tick>) returns (ghost states: seq<State>)
      requires vars == Fresh() && round.StructuralTick? && poll.TaskTick?
      requires TickTyped(cfg, round) && TickTyped(cfg, poll) && forall i | 0 <= i < |ticks| :: TickTyped(cfg, ticks[i])
      modifies this
      ensures IsPolling(cfg, states, [round, poll] + ticks) && states[|ticks| + 2] == vars
    {
      var mid := FirstFetch(round, poll);
      states := [Fresh(), mid, vars];
      FirstTwo(cfg, round, poll, mid, vars);
      assert [round, poll] + ticks[..0] == [round, poll];
      for i := 0 to |ticks|
        invariant IsPolling(cfg, states, [round, poll] + ticks[..i]) && states[i + 2] == vars
      {
        ghost var done, before := [round, poll] + ticks[..i], states;
        OnTick(ticks[i]);
        states := states + [vars];
        PollingGrows(cfg, before, done, ticks[i], vars);
        assert [round, poll] + ticks[..i + 1] == done + [ticks[i]];
      }
      assert ticks[..|ticks|] == ticks;
    }
  }

  lemma FirstTwo(c: Config, round: Tick, poll: Tick, mid: State, t: State)
    requires TickTyped(c, round) && TickTyped(c, poll) && Ticked(c, Fresh(), round, mid) && Ticked(c, mid, poll, t)
    ensures IsPolling(c, [Fresh(), mid, t], [round, poll])
  {
    assert TicksAt(c, [Fresh(), mid, t], [round, poll], 0) && TicksAt(c, [Fresh(), mid, t], [round, poll], 1);
  }

  lemma SameRefresh(c: Config, s: State, fetched: Option<seq<FetchedTask>>, now: int, marshals: bool, m: State)
    requires fetched.Some? && Refreshed(c, s, TaskTick(fetched, now, true), m)
    ensures Refreshed(c, s, TaskTick(fetched, now, marshals), m)
  {
    var shown :| ShowsTasks(c, s, TaskTick(fetched, now, true), shown, m);
    assert ShowsTasks(c, s, TaskTick(fetched, now, marshals), shown, m);
  }
}
