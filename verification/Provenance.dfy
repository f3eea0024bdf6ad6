/** Where the frames come from: which structural round and which poll fetched what a
    frame shows, over every run of the poller. */
module Provenance {
  import opened Values
  import opened StoppedTasks
  import opened Inspector
  import opened Polling

  // ----- the groups -----

  /** What a tick does to the groups. */
  predicate BringsGroups(c: Config, s: State, tick: Tick, t: State) {
    && t.haveStructural == (s.haveStructural || CompleteRound(tick))
    && t.rawLead == if CompleteRound(tick) then RoundValues(c, tick) else s.rawLead
  }

  /** A run, as far as the groups go. */
  predicate GroupRun(c: Config, states: seq<State>, ticks: seq<Tick>) {
    && |states| == |ticks| + 1 && !states[0].haveStructural
    && forall i | 0 <= i < |ticks| :: BringsGroups(c, states[i], ticks[i], states[i + 1])
  }

  lemma PollingRunsGroups(c: Config, states: seq<State>, ticks: seq<Tick>)
    requires c.Ok() && IsPolling(c, states, ticks)
    ensures GroupRun(c, states, ticks)
  {
    forall i | 0 <= i < |ticks| ensures BringsGroups(c, states[i], ticks[i], states[i + 1]) {
      StepSends(c, states, ticks, i + 1);
    }
  }

  lemma {:induction false} LastRound(c: Config, states: seq<State>, ticks: seq<Tick>, j: nat) returns (r: nat)
    requires GroupRun(c, states, ticks) && j < |states| && states[j].haveStructural
    ensures r < j && CompleteRound(ticks[r]) && states[j].rawLead == RoundValues(c, ticks[r])
    ensures forall i | r < i < j :: !CompleteRound(ticks[i])
    decreases j
  {
    assert j > 0;
    assert BringsGroups(c, states[j - 1], ticks[j - 1], states[j]);
    if CompleteRound(ticks[j - 1]) {
      r := j - 1;
    } else {
      r := LastRound(c, states, ticks, j - 1);
    }
  }

  /** The three structural groups always come from one round, the last complete one. */
  lemma GroupsOfOneRound(c: Config, states: seq<State>, ticks: seq<Tick>, j: nat) returns (r: nat)
    requires c.Ok() && IsPolling(c, states, ticks) && j < |states| && states[j].haveStructural
    ensures r < j && CompleteRound(ticks[r]) && states[j].rawLead == RoundValues(c, ticks[r])
    ensures forall i | r < i < j :: !CompleteRound(ticks[i])
  {
    PollingRunsGroups(c, states, ticks);
    r := LastRound(c, states, ticks, j);
  }

  // ----- the tasks -----

  /** What a tick does to the cache and the tasks to show. */
  predicate Brings(s: State, tick: Tick, shown: seq<Task>, t: State) {
    if CompletePoll(tick) then
      && PollShows(t.cache, PolledTasks(s, tick), shown)
      && t.cache == Polled(s.cache, PolledTasks(s, tick), tick.now)
      && t.polls == s.polls + 1 && t.raws == Placed(s, tick.fetched.value).raws && t.rawTasks == RawTasks(shown, t.raws)
    else t.cache == s.cache && t.polls == s.polls && t.raws == s.raws && t.rawTasks == s.rawTasks
  }

  predicate SameTasks(m: State, t: State) {
    t.cache == m.cache && t.polls == m.polls && t.raws == m.raws && t.rawTasks == m.rawTasks
  }

  lemma PublishLeavesTasks(c: Config, m: State, marshals: bool)
    ensures SameTasks(m, AfterPublish(c, m, marshals))
  {
  }

  lemma PollBrings(c: Config, s: State, tick: Tick, shown: seq<Task>, m: State)
    requires CompletePoll(tick) && ShowsTasks(c, s, tick, shown, m)
    ensures Brings(s, tick, shown, m)
  {
    RawTasksOfNone(m.raws);
  }

  lemma TickBrings(c: Config, s: State, tick: Tick, t: State) returns (shown: seq<Task>)
    requires Ticked(c, s, tick, t)
    ensures Brings(s, tick, shown, t)
  {
    shown := [];
    if Succeeds(tick) {
      var m :| Refreshed(c, s, tick, m) && t == AfterPublish(c, m, tick.marshals);
      PublishLeavesTasks(c, m, tick.marshals);
      if tick.TaskTick? {
        shown :| ShowsTasks(c, s, tick, shown, m);
        PollBrings(c, s, tick, shown, m);
      }
    }
  }

  lemma RawTasksOfNone(raws: map<ObjectId, Value>)
    ensures RawTasks([], raws) == []
  {
  }

  lemma StepBrings(c: Config, states: seq<State>, ticks: seq<Tick>, j: nat) returns (shown: seq<Task>)
    requires IsPolling(c, states, ticks) && 0 < j < |states|
    ensures Brings(states[j - 1], ticks[j - 1], shown, states[j])
  {
    assert TicksAt(c, states, ticks, j - 1);
    shown := TickBrings(c, states[j - 1], ticks[j - 1], states[j]);
  }

  /** Objects are numbered by the polls made so far. */
  lemma {:induction false} PollsNumberObjects(c: Config, states: seq<State>, ticks: seq<Tick>, j: nat)
    requires IsPolling(c, states, ticks) && j < |states|
    ensures forall o | o in states[j].raws :: o.poll < states[j].polls
    decreases j
  {
    if j > 0 {
      PollsNumberObjects(c, states, ticks, j - 1);
      var shown := StepBrings(c, states, ticks, j);
    }
  }

  /** Poll `k` fetched task `t`, with value `v`. */
  predicate FetchedBy(states: seq<State>, ticks: seq<Tick>, k: nat, t: Task, v: Value)
    requires |ticks| < |states|
  {
    && k < |ticks| && CompletePoll(ticks[k])
    && t.obj.index < |ticks[k].fetched.value| && t == PolledTasks(states[k], ticks[k])[t.obj.index]
    && v == ticks[k].fetched.value[t.obj.index].fetched.Raw()
  }

  ghost predicate FetchedUpTo(states: seq<State>, ticks: seq<Tick>, r: nat, t: Task, v: Value)
    requires |ticks| < |states|
  {
    exists k :: 0 <= k <= r && FetchedBy(states, ticks, k, t, v)
  }

  /** A task that a poll lists was fetched by it. */
  lemma ListedIsFetched(states: seq<State>, ticks: seq<Tick>, k: nat, shown: seq<Task>, t: Task)
    requires k < |ticks| < |states| && CompletePoll(ticks[k])
    requires Brings(states[k], ticks[k], shown, states[k + 1]) && t in PolledTasks(states[k], ticks[k])
    ensures t.obj in states[k + 1].raws && FetchedBy(states, ticks, k, t, states[k + 1].raws[t.obj])
  {
    PlacedTask(states[k], ticks[k].fetched.value, t.obj.index);
  }

  /** Every cached task was fetched by some poll, and what it fetched is on record. */
  lemma {:induction false} CachedIsFetched(c: Config, states: seq<State>, ticks: seq<Tick>, j: nat, id: string)
    requires IsPolling(c, states, ticks) && j < |states| && Keyed(states[j].cache) && id in states[j].cache
    ensures var t := states[j].cache[id].task;
            j > 0 && t.obj in states[j].raws && FetchedUpTo(states, ticks, j - 1, t, states[j].raws[t.obj])
    decreases j
  {
    assert j > 0;
    var shown := StepBrings(c, states, ticks, j);
    var s, tick, t := states[j - 1], ticks[j - 1], states[j].cache[id].task;
    CacheKeyed(c, states, ticks, j - 1);
    if CompletePoll(tick) && t in PolledTasks(s, tick) {
      ListedIsFetched(states, ticks, j - 1, shown, t);
    } else {
      NotListedWasCached(s, tick, shown, states[j], id);
      CachedIsFetched(c, states, ticks, j - 1, id);
      PollsNumberObjects(c, states, ticks, j - 1);
      RawIsKept(s, tick, shown, states[j], t.obj);
      FetchedLater(states, ticks, j - 2, j - 1, t, s.raws[t.obj]);
    }
  }

  lemma RawIsKept(s: State, tick: Tick, shown: seq<Task>, t: State, o: ObjectId)
    requires Brings(s, tick, shown, t) && o in s.raws && o.poll < s.polls
    ensures o in t.raws && t.raws[o] == s.raws[o]
  {
  }

  lemma FetchedLater(states: seq<State>, ticks: seq<Tick>, r: nat, later: nat, t: Task, v: Value)
    requires |ticks| < |states| && r <= later && FetchedUpTo(states, ticks, r, t, v)
    ensures FetchedUpTo(states, ticks, later, t, v)
  {
  }

  lemma NotListedWasCached(s: State, tick: Tick, shown: seq<Task>, t: State, id: string)
    requires Brings(s, tick, shown, t) && Keyed(s.cache) && id in t.cache
    requires CompletePoll(tick) ==> t.cache[id].task !in PolledTasks(s, tick)
    ensures id in s.cache && s.cache[id].task == t.cache[id].task
  {
    if CompletePoll(tick) {
      NoteAllKeyed(s.cache, PolledTasks(s, tick), tick.now);
    }
  }

  lemma {:induction false} CacheKeyed(c: Config, states: seq<State>, ticks: seq<Tick>, j: nat)
    requires IsPolling(c, states, ticks) && j < |states|
    ensures Keyed(states[j].cache)
    decreases j
  {
    if j > 0 {
      CacheKeyed(c, states, ticks, j - 1);
      var shown := StepBrings(c, states, ticks, j);
      if CompletePoll(ticks[j - 1]) {
        NoteAllKeyed(states[j - 1].cache, PolledTasks(states[j - 1], ticks[j - 1]), ticks[j - 1].now);
      }
    }
  }

  /** `raw` are the values of the tasks that poll `r` shows: its running tasks, as it
      fetched them, then the newest stopped task of every slot, each as it or an
      earlier poll fetched it. */
  ghost predicate TasksOf(states: seq<State>, ticks: seq<Tick>, r: nat, shown: seq<Task>, raw: seq<Value>)
    requires |states| == |ticks| + 1
  {
    && r < |ticks| && CompletePoll(ticks[r])
    && PollShows(states[r + 1].cache, PolledTasks(states[r], ticks[r]), shown)
    && |raw| == |shown|
    && (forall i | 0 <= i < |shown| :: FetchedUpTo(states, ticks, r, shown[i], raw[i]))
    && (forall i | 0 <= i < |Live(PolledTasks(states[r], ticks[r]))| :: FetchedBy(states, ticks, r, shown[i], raw[i]))
  }

  lemma StoppedIsFetched(c: Config, states: seq<State>, ticks: seq<Tick>, r: nat, t: Task, live: set<string>)
    requires IsPolling(c, states, ticks) && r < |ticks| && t in Candidates(states[r + 1].cache, live)
    ensures t.obj in states[r + 1].raws && FetchedUpTo(states, ticks, r, t, states[r + 1].raws[t.obj])
  {
    CacheKeyed(c, states, ticks, r + 1);
    CachedIsFetched(c, states, ticks, r + 1, t.id);
  }

  lemma LiveIsListed(tasks: seq<Task>, i: nat)
    requires i < |Live(tasks)|
    ensures Live(tasks)[i] in tasks
  {
    LiveFacts(tasks);
    assert Live(tasks)[i] in Live(tasks);
  }

  lemma LiveShownIsFetched(states: seq<State>, ticks: seq<Tick>, r: nat, shown: seq<Task>, i: nat)
    requires r < |ticks| < |states| && CompletePoll(ticks[r]) && Brings(states[r], ticks[r], shown, states[r + 1])
    requires i < |Live(PolledTasks(states[r], ticks[r]))|
    ensures i < |shown| && FetchedBy(states, ticks, r, shown[i], states[r + 1].rawTasks[i])
  {
    LiveIsListed(PolledTasks(states[r], ticks[r]), i);
    assert shown[i] == Live(PolledTasks(states[r], ticks[r]))[i];
    ListedIsFetched(states, ticks, r, shown, shown[i]);
  }

  lemma StoppedShownIsFetched(c: Config, states: seq<State>, ticks: seq<Tick>, r: nat, shown: seq<Task>, i: nat)
    requires IsPolling(c, states, ticks) && r < |ticks| && CompletePoll(ticks[r]) && Brings(states[r], ticks[r], shown, states[r + 1])
    requires |Live(PolledTasks(states[r], ticks[r]))| <= i < |shown|
    ensures FetchedUpTo(states, ticks, r, shown[i], states[r + 1].rawTasks[i])
  {
    var live := Live(PolledTasks(states[r], ticks[r]));
    assert shown[i] == shown[|live|..][i - |live|] && shown[i] in shown[|live|..];
    StoppedIsFetched(c, states, ticks, r, shown[i], Ids(live));
  }

  lemma PollOrigin(c: Config, states: seq<State>, ticks: seq<Tick>, r: nat, shown: seq<Task>)
    requires IsPolling(c, states, ticks) && r < |ticks| && CompletePoll(ticks[r]) && Brings(states[r], ticks[r], shown, states[r + 1])
    ensures TasksOf(states, ticks, r, shown, states[r + 1].rawTasks)
  {
    forall i | 0 <= i < |shown|
      ensures FetchedUpTo(states, ticks, r, shown[i], states[r + 1].rawTasks[i])
      ensures i < |Live(PolledTasks(states[r], ticks[r]))| ==> FetchedBy(states, ticks, r, shown[i], states[r + 1].rawTasks[i])
    {
      if i < |Live(PolledTasks(states[r], ticks[r]))| {
        LiveShownIsFetched(states, ticks, r, shown, i);
      } else {
        StoppedShownIsFetched(c, states, ticks, r, shown, i);
      }
    }
  }

  lemma StepLoads(c: Config, states: seq<State>, ticks: seq<Tick>, j: nat)
    requires c.Ok() && IsPolling(c, states, ticks) && 0 < j < |states|
    ensures states[j].haveTasks == (states[j - 1].haveTasks || CompletePoll(ticks[j - 1]))
  {
    StepSends(c, states, ticks, j);
  }

  /** The tasks to show always come from one poll, the last successful one. */
  lemma {:induction false} TasksOfOnePoll(c: Config, states: seq<State>, ticks: seq<Tick>, j: nat) returns (r: nat, shown: seq<Task>)
    requires c.Ok() && IsPolling(c, states, ticks) && j < |states| && states[j].haveTasks
    ensures r < j && TasksOf(states, ticks, r, shown, states[j].rawTasks)
    ensures forall i | r < i < j :: !CompletePoll(ticks[i])
    decreases j
  {
    assert j > 0;
    StepLoads(c, states, ticks, j);
    shown := StepBrings(c, states, ticks, j);
    if CompletePoll(ticks[j - 1]) {
      r := j - 1;
      PollOrigin(c, states, ticks, r, shown);
    } else {
      r, shown := TasksOfOnePoll(c, states, ticks, j - 1);
    }
  }

  // ----- the frames -----

  /** `frame` was sent at tick `k`: the redaction of the groups of round `r` and of the
      tasks shown by poll `q`, the last complete ones at that time. */
  ghost predicate Origin(c: Config, states: seq<State>, ticks: seq<Tick>, frame: Value, k: nat, r: nat, q: nat, shown: seq<Task>, raw: seq<Value>)
    requires |states| == |ticks| + 1
  {
    && r <= k < |ticks| && q <= k && Succeeds(ticks[k]) && ticks[k].marshals
    && CompleteRound(ticks[r]) && (forall i | r < i <= k :: !CompleteRound(ticks[i]))
    && TasksOf(states, ticks, q, shown, raw) && (forall i | q < i <= k :: !CompletePoll(ticks[i]))
    && frame == Redacted(c.w, c.Hidden(), c.paths, RoundValues(c, ticks[r]), raw)
  }

  lemma OldFrame(c: Config, states: seq<State>, ticks: seq<Tick>, j: nat, f: nat)
    requires c.Ok() && IsPolling(c, states, ticks) && 0 < j < |states| && f < |states[j - 1].sent|
    ensures f < |states[j].sent| && states[j].sent[f] == states[j - 1].sent[f]
  {
    StepSends(c, states, ticks, j);
  }

  lemma NewFrame(c: Config, states: seq<State>, ticks: seq<Tick>, j: nat, f: nat)
    requires c.Ok() && IsPolling(c, states, ticks) && 0 < j < |states| && |states[j - 1].sent| <= f < |states[j].sent|
    ensures f == |states[j - 1].sent| && states[j].sent[f] == RedactedNow(c, states[j])
    ensures Succeeds(ticks[j - 1]) && ticks[j - 1].marshals && Loaded(states[j])
  {
    StepSends(c, states, ticks, j);
  }

  lemma NewFrameHasOrigin(c: Config, states: seq<State>, ticks: seq<Tick>, j: nat, f: nat) returns (r: nat, q: nat, shown: seq<Task>)
    requires c.Ok() && IsPolling(c, states, ticks) && 0 < j < |states| && |states[j - 1].sent| <= f < |states[j].sent|
    ensures Origin(c, states, ticks, states[j].sent[f], j - 1, r, q, shown, states[j].rawTasks)
  {
    NewFrame(c, states, ticks, j, f);
    r := GroupsOfOneRound(c, states, ticks, j);
    q, shown := TasksOfOnePoll(c, states, ticks, j);
  }

  /** Every frame has such an origin; the f-th was sent when f had been sent before. */
  lemma {:induction false} FrameHasOrigin(c: Config, states: seq<State>, ticks: seq<Tick>, j: nat, f: nat)
    returns (k: nat, r: nat, q: nat, shown: seq<Task>)
    requires c.Ok() && IsPolling(c, states, ticks) && j < |states| && f < |states[j].sent|
    ensures k < j && |states[k].sent| == f
    ensures Origin(c, states, ticks, states[j].sent[f], k, r, q, shown, states[k + 1].rawTasks)
    decreases j
  {
    assert j > 0;
    if f < |states[j - 1].sent| {
      OldFrame(c, states, ticks, j, f);
      k, r, q, shown := FrameHasOrigin(c, states, ticks, j - 1, f);
    } else {
      NewFrame(c, states, ticks, j, f);
      k := j - 1;
      r, q, shown := NewFrameHasOrigin(c, states, ticks, j, f);
    }
  }
}
