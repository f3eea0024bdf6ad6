/** What the frames show and what they hide, over every run of the poller: spelled out
    flag by flag and location by location. */
module Frames {
  import opened Text
  import opened PathSyntax
  import opened Values
  import opened PathClear
  import opened PathMatch
  import opened Snapshots
  import opened SnapshotClear
  import opened StoppedTasks
  import opened Inspector
  import opened Polling
  import opened Provenance

  /** The tasks that a frame shows. */
  function TasksShown(w: World, frame: Value): seq<Value> {
    if frame.Struct? && |frame.fields| == |w.lead| + 1 && frame.fields[|w.lead|].List? then frame.fields[|w.lead|].elems else []
  }

  lemma RedactedTask(c: Config, lead: seq<Value>, raw: seq<Value>, i: nat)
    requires c.w.Ok() && |lead| == |c.w.lead|
    requires i < |TasksShown(c.w, Redacted(c.w, c.Hidden(), c.paths, lead, raw))|
    ensures i < |raw|
    ensures TasksShown(c.w, Redacted(c.w, c.Hidden(), c.paths, lead, raw))[i] == Effects(c.w, c.Sweeps(), SlotKind(i), raw[i])
  {
    var hidden := if raw == [] then None else Some(EachTask(c.w, HideSweeps(c.Hidden()), raw));
    RootClearAll(c.w, lead, hidden, c.paths);
    TasksInTwoStages(c.w, c.Hidden(), c.paths, raw);
  }

  lemma OriginOfFrame(c: Config, states: seq<State>, ticks: seq<Tick>, j: nat, f: nat) returns (lead: seq<Value>, raw: seq<Value>)
    requires c.Ok() && IsPolling(c, states, ticks) && j < |states| && f < |states[j].sent|
    ensures |lead| == |c.w.lead| && states[j].sent[f] == Redacted(c.w, c.Hidden(), c.paths, lead, raw)
  {
    var k, r, q, shown := FrameHasOrigin(c, states, ticks, j, f);
    lead, raw := RoundValues(c, ticks[r]), states[k + 1].rawTasks;
  }

  // ----- what is hidden -----

  /** Clearing the field of any flag that is set would change nothing. */
  predicate FlagsHonoured(flags: Sanitize.Config, ty: Type, t: Value) {
    && (flags.hideAllConfigs ==> Clear(ty, t, ["Spec", "ContainerSpec", "Configs"]) == t)
    && (flags.hideAllEnvs ==> Clear(ty, t, ["Spec", "ContainerSpec", "Env"]) == t)
    && (flags.hideAllMounts ==> Clear(ty, t, ["Spec", "ContainerSpec", "Mounts"]) == t)
    && (flags.hideAllSecrets ==> Clear(ty, t, ["Spec", "ContainerSpec", "Secrets"]) == t)
    && ("all" in flags.hideLabels || "container" in flags.hideLabels ==> Clear(ty, t, ["Spec", "ContainerSpec", "Labels"]) == t)
  }

  lemma HiddenIsCleared(c: Config, h: Path, i: nat, x: Value)
    requires h in c.Hidden() && h != []
    ensures var t := Effects(c.w, c.Sweeps(), SlotKind(i), x); Clear(c.w.taskT, t, h) == t
  {
    var k :| 0 <= k < |c.Hidden()| && c.Hidden()[k] == h;
    assert HideSweeps(c.Hidden())[k] == HideSweep(h);
    assert HideSweep(h) in c.Sweeps();
    EffectsSettle(c.w, c.Sweeps(), HideSweep(h), SlotKind(i), x);
    assert Effect(c.w, HideSweep(h), SlotKind(i), Effects(c.w, c.Sweeps(), SlotKind(i), x)) ==
           Clear(c.w.taskT, Effects(c.w, c.Sweeps(), SlotKind(i), x), h);
  }

  /** In every frame of every run, every task shows nothing in the field of any flag that
      is set. */
  lemma FlaggedFieldsAreGone(c: Config, states: seq<State>, ticks: seq<Tick>, j: nat, f: nat, i: nat)
    requires c.Ok() && IsPolling(c, states, ticks) && j < |states| && f < |states[j].sent|
    requires i < |TasksShown(c.w, states[j].sent[f])|
    ensures FlagsHonoured(c.flags, c.w.taskT, TasksShown(c.w, states[j].sent[f])[i])
  {
    var lead, raw := OriginOfFrame(c, states, ticks, j, f);
    RedactedTask(c, lead, raw, i);
    forall h | h in c.Hidden() && h != [] ensures Clear(c.w.taskT, Effects(c.w, c.Sweeps(), SlotKind(i), raw[i]), h) == Effects(c.w, c.Sweeps(), SlotKind(i), raw[i]) {
      HiddenIsCleared(c, h, i, raw[i]);
    }
    FlagsListTheirFields(c.flags);
  }

  lemma FlagsListTheirFields(flags: Sanitize.Config)
    ensures flags.hideAllConfigs ==> ["Spec", "ContainerSpec", "Configs"] in HiddenPaths(flags)
    ensures flags.hideAllEnvs ==> ["Spec", "ContainerSpec", "Env"] in HiddenPaths(flags)
    ensures flags.hideAllMounts ==> ["Spec", "ContainerSpec", "Mounts"] in HiddenPaths(flags)
    ensures flags.hideAllSecrets ==> ["Spec", "ContainerSpec", "Secrets"] in HiddenPaths(flags)
    ensures "all" in flags.hideLabels || "container" in flags.hideLabels ==> ["Spec", "ContainerSpec", "Labels"] in HiddenPaths(flags)
  {
  }

  /** Where clearing a path changes nothing, everything the path matches is zero: what a
      reader of the frame sees there. */
  lemma ClearedShowsZero(ty: Type, t: Value, p: Path, loc: Location)
    requires Clear(ty, t, p) == t && |p| == |loc| >= 1 && Matches(ty, t, p, loc)
    ensures At(ty, t, loc).Some? && At(ty, t, loc).value.v == Zero(At(ty, t, loc).value.ty)
  {
    MatchedIsZeroed(ty, t, p, loc);
  }

  /** In every frame of every run, nothing is left of any sensitive path. */
  lemma SensitivePathsAreGone(c: Config, states: seq<State>, ticks: seq<Tick>, j: nat, f: nat, p: Path)
    requires c.Ok() && IsPolling(c, states, ticks) && j < |states| && f < |states[j].sent| && p in c.paths
    ensures Clear(c.w.RootT(), states[j].sent[f], p) == states[j].sent[f]
  {
    var lead, raw := OriginOfFrame(c, states, ticks, j, f);
    var hidden := if raw == [] then None else Some(EachTask(c.w, HideSweeps(c.Hidden()), raw));
    ClearAllSettles(c.w.RootT(), Root(lead, TasksValue(hidden)), c.paths, p);
  }

  // ----- what is not -----

  /** The location lies apart from the fields of the flags that are set, in every task. */
  predicate FlagsApart(flags: Sanitize.Config, w: World, loc: Location) {
    loc != [] && (loc[0] == FieldAt(|w.lead|) ==>
      var rest := if |loc| >= 2 then loc[2..] else [];
      && (flags.hideAllConfigs ==> Apart(w.taskT, ["Spec", "ContainerSpec", "Configs"], rest))
      && (flags.hideAllEnvs ==> Apart(w.taskT, ["Spec", "ContainerSpec", "Env"], rest))
      && (flags.hideAllMounts ==> Apart(w.taskT, ["Spec", "ContainerSpec", "Mounts"], rest))
      && (flags.hideAllSecrets ==> Apart(w.taskT, ["Spec", "ContainerSpec", "Secrets"], rest))
      && ("all" in flags.hideLabels || "container" in flags.hideLabels ==> Apart(w.taskT, ["Spec", "ContainerSpec", "Labels"], rest)))
  }

  lemma {:induction false} HidingClears(w: World, hs: seq<Path>, j: nat, x: Value)
    requires forall h | h in hs :: h != []
    ensures Effects(w, HideSweeps(hs), SlotKind(j), x) == ClearAll(w.taskT, x, hs)
    decreases |hs|
  {
    if hs != [] {
      assert hs[0] in hs && HideSweeps(hs)[1..] == HideSweeps(hs[1..]);
      assert forall h | h in hs[1..] :: h in hs;
      HidingClears(w, hs[1..], j, Clear(w.taskT, x, hs[0]));
    }
  }

  lemma HiddenTaskKeeps(c: Config, loc: Location, j: nat, x: Value)
    requires loc != [] && loc[0] == FieldAt(|c.w.lead|) && FlagsApart(c.flags, c.w, loc)
    ensures var rest := if |loc| >= 2 then loc[2..] else [];
            At(c.w.taskT, Effects(c.w, HideSweeps(c.Hidden()), SlotKind(j), x), rest) == At(c.w.taskT, x, rest)
  {
    var rest := if |loc| >= 2 then loc[2..] else [];
    HidingClears(c.w, c.Hidden(), j, x);
    AllApartIsKept(c.w.taskT, x, c.Hidden(), rest);
  }

  lemma HidingKeeps(c: Config, lead: seq<Value>, raw: seq<Value>, loc: Location)
    requires c.w.Ok() && |lead| == |c.w.lead| && raw != [] && FlagsApart(c.flags, c.w, loc)
    ensures At(c.w.RootT(), Root(lead, List(EachTask(c.w, HideSweeps(c.Hidden()), raw))), loc) == At(c.w.RootT(), Root(lead, List(raw)), loc)
  {
    var n, each := |c.w.lead|, EachTask(c.w, HideSweeps(c.Hidden()), raw);
    assert c.w.Fields()[n] == c.w.tasksField;
    if loc[0] == FieldAt(n) {
      forall j | 0 <= j < |raw|
        ensures At(c.w.taskT, each[j], if |loc| >= 2 then loc[2..] else []) == At(c.w.taskT, raw[j], if |loc| >= 2 then loc[2..] else [])
      {
        HiddenTaskKeeps(c, loc, j, raw[j]);
      }
      if |loc| == 1 {
        assert forall j | 0 <= j < |raw| :: At(c.w.taskT, each[j], []) == Some(Place(c.w.taskT, each[j]));
        assert each == raw;
      } else {
        TaskOfRoot(c.w, lead, each, loc);
        TaskOfRoot(c.w, lead, raw, loc);
      }
    } else {
      LeadOfRoot(c.w, lead, List(each), List(raw), loc);
    }
  }

  /** What is found in a task of a snapshot. */
  lemma TaskOfRoot(w: World, lead: seq<Value>, ts: seq<Value>, loc: Location)
    requires w.Ok() && |lead| == |w.lead| && |loc| >= 2 && loc[0] == FieldAt(|w.lead|)
    ensures At(w.RootT(), Root(lead, List(ts)), loc) ==
            if loc[1].IndexAt? && loc[1].i < |ts| then At(w.taskT, ts[loc[1].i], loc[2..]) else None
  {
    assert w.Fields()[|w.lead|] == w.tasksField && loc[1..][0] == loc[1] && loc[1..][1..] == loc[2..];
    assert Part(w.RootT(), Root(lead, List(ts)), loc[0]) == Some(Place(SliceT(w.taskT), List(ts)));
  }

  lemma LeadOfRoot(w: World, lead: seq<Value>, t: Value, u: Value, loc: Location)
    requires |lead| == |w.lead| && loc != [] && loc[0] != FieldAt(|w.lead|)
    ensures At(w.RootT(), Root(lead, t), loc) == At(w.RootT(), Root(lead, u), loc)
  {
    assert Part(w.RootT(), Root(lead, t), loc[0]) == Part(w.RootT(), Root(lead, u), loc[0]);
  }

  /** What a structural round and the tasks with values `raw` would show unredacted: the
      constants, networks, nodes, services and tasks. */
  function Unredacted(c: Config, tick: Tick, raw: seq<Value>): Value
    requires CompleteRound(tick)
  {
    Struct(c.header + [tick.networks.value.Raw(), tick.nodes.value.Raw(), tick.services.value.Raw()] + [if raw == [] then Nil else List(raw)])
  }

  /** In every frame of every run, what lies apart from all sensitive paths and from the
      fields of the flags that are set is shown as the last complete round and the polls
      fetched it. */
  lemma NothingElseIsHidden(c: Config, states: seq<State>, ticks: seq<Tick>, j: nat, f: nat, loc: Location)
    returns (k: nat, r: nat, q: nat, shown: seq<Task>)
    requires c.Ok() && IsPolling(c, states, ticks) && j < |states| && f < |states[j].sent|
    requires (forall p | p in c.paths :: Apart(c.w.RootT(), p, loc)) && FlagsApart(c.flags, c.w, loc)
    ensures k < j && Origin(c, states, ticks, states[j].sent[f], k, r, q, shown, states[k + 1].rawTasks)
    ensures At(c.w.RootT(), states[j].sent[f], loc) == At(c.w.RootT(), Unredacted(c, ticks[r], states[k + 1].rawTasks), loc)
  {
    k, r, q, shown := FrameHasOrigin(c, states, ticks, j, f);
    var lead, raw := RoundValues(c, ticks[r]), states[k + 1].rawTasks;
    var hidden := if raw == [] then None else Some(EachTask(c.w, HideSweeps(c.Hidden()), raw));
    AllApartIsKept(c.w.RootT(), Root(lead, TasksValue(hidden)), c.paths, loc);
    if raw != [] {
      HidingKeeps(c, lead, raw, loc);
    }
  }

  // ----- when there is a frame -----

  /** The poller has all it needs exactly from the first complete round and the first
      successful poll on. */
  lemma {:induction false} LoadedExactly(c: Config, states: seq<State>, ticks: seq<Tick>, j: nat)
    requires c.Ok() && IsPolling(c, states, ticks) && j < |states|
    ensures states[j].haveStructural <==>
            exists r :: 0 <= r < j && ticks[r].StructuralTick? && ticks[r].nodes.Some? && ticks[r].services.Some? && ticks[r].networks.Some?
    ensures states[j].haveTasks <==> exists q :: 0 <= q < j && ticks[q].TaskTick? && ticks[q].fetched.Some?
    decreases j
  {
    if j > 0 {
      LoadedExactly(c, states, ticks, j - 1);
      StepSends(c, states, ticks, j);
    }
  }

  /** As long as frames can be encoded, from then on the last frame sent shows the data as
      they are. */
  lemma {:induction false} NewestIsSent(c: Config, states: seq<State>, ticks: seq<Tick>, j: nat)
    requires c.Ok() && IsPolling(c, states, ticks) && j < |states| && forall i | 0 <= i < j :: ticks[i].marshals
    requires states[j].haveStructural && states[j].haveTasks
    ensures states[j].sent != [] && states[j].sent[|states[j].sent| - 1] == RedactedNow(c, states[j])
    decreases j
  {
    assert j > 0;
    StepSends(c, states, ticks, j);
    if !Succeeds(ticks[j - 1]) {
      assert TicksAt(c, states, ticks, j - 1);
      NewestIsSent(c, states, ticks, j - 1);
    }
  }
}
