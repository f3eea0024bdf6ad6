/** docker.inspectSwarmServices: cached groups, redaction in place over memory that
    cached groups, cached tasks and the previously published snapshot share, and
    publication of what changed. Every step is a function of the poller's variables,
    and keeps one invariant. */
module Inspector {
  import opened Text
  import opened PathSyntax
  import opened Values
  import opened PathClear
  import opened Memory
  import opened Snapshots
  import opened SnapshotClear
  import opened StoppedTasks
  import Sanitize

  /** A value as a fetch returns it: freshly allocated. */
  datatype Fetched = Fetched(cell: Cell, objects: Objects) {
    function Raw(): Value { Load(cell, [], objects) }
    predicate Ok(ty: Type) { Fits(ty, cell) && Typed(ty, objects) }
  }

  datatype FetchedTask = FetchedTask(task: Task, fetched: Fetched)

  /** What the redaction of fetched data is: the hidden paths cleared from every task,
      then the sensitive paths from the whole. */
  function Redacted(w: World, hidden: seq<Path>, paths: seq<Path>, lead: seq<Value>, tasks: seq<Value>): Value {
    ClearAll(w.RootT(), Root(lead, TasksValue(if tasks == [] then None else Some(EachTask(w, HideSweeps(hidden), tasks)))), paths)
  }

  function AllSweeps(w: World, hidden: seq<Path>, paths: seq<Path>): seq<Sweep> {
    HideSweeps(hidden) + PathSweeps(w, paths)
  }

  // ----- the variables of the poller -----

  /** The fields that sanitizeTasks sets to nil in every task. */
  function HiddenPaths(flags: Sanitize.Config): seq<Path> {
    (if flags.hideAllConfigs then [["Spec", "ContainerSpec", "Configs"]] else []) +
    (if flags.hideAllEnvs then [["Spec", "ContainerSpec", "Env"]] else []) +
    (if flags.hideAllMounts then [["Spec", "ContainerSpec", "Mounts"]] else []) +
    (if flags.hideAllSecrets then [["Spec", "ContainerSpec", "Secrets"]] else []) +
    (if Sanitize.HidesContainerLabels(flags) then [["Spec", "ContainerSpec", "Labels"]] else [])
  }

  /** `header` are the values of the fields before the three groups. */
  datatype Config = Config(w: World, flags: Sanitize.Config, paths: seq<Path>, header: seq<Value>) {
    function Hidden(): seq<Path> { HiddenPaths(flags) }
    function Sweeps(): seq<Sweep> { AllSweeps(w, Hidden(), paths) }

    predicate Typed() {
      && w.Ok() && |w.lead| == |header| + 3
      && (forall i | 0 <= i < |header| :: Fits(w.lead[i].ty, Flat(header[i])))
    }

    /** Every sensitive path is harmless among all that is cleared, after those before it. */
    ghost predicate Ok() {
      Typed() && AllHarmless(w, Sweeps(), [], paths)
    }
  }

  /** `shapes` are the by-value parts of the task objects in memory, and the counters
      number what is allocated. The rest is history: `sent` are the contents handed to
      the hub, `rawLead` and `rawTasks` the values brought by the last complete
      structural round and for the tasks of the last successful poll, `raws` the value
      fetched for every task object. */
  datatype State = State(
    store: Store, lead: seq<Elem>, tasks: Option<nat>, haveStructural: bool, haveTasks: bool,
    cache: Cache, shapes: map<ObjectId, Cell>, last: Option<Snapshot>,
    rounds: nat, polls: nat, arrays: nat,
    sent: seq<Value>, rawLead: seq<Value>, rawTasks: seq<Value>, raws: map<ObjectId, Value>)

  function Fresh(): State {
    State(Store(map[], map[]), [], None, false, false, map[], map[], None, 0, 0, 0, [], [], [], map[])
  }

  predicate Loaded(s: State) {
    s.haveStructural && s.haveTasks
  }

  function RedactedNow(c: Config, s: State): Value {
    Redacted(c.w, c.Hidden(), c.paths, s.rawLead, s.rawTasks)
  }

  // ----- the steps -----

  function Header(header: seq<Value>): seq<Fetched> {
    seq(|header|, i requires 0 <= i < |header| => Fetched(Flat(header[i]), map[]))
  }

  /** The leading fields of a snapshot: the constants and the three groups. */
  function Groups(c: Config, n: Fetched, svc: Fetched, nw: Fetched): seq<Fetched> {
    Header(c.header) + [nw, n, svc]
  }

  function RawValues(all: seq<Fetched>): seq<Value> {
    seq(|all|, i requires 0 <= i < |all| => all[i].Raw())
  }

  function PlaceLead(h: Heap, all: seq<Fetched>, serial: nat): Heap {
    h + map i | 0 <= i < |all| :: Owner(LeadKind(i), serial, 0) := all[i].objects
  }

  function LeadElems(all: seq<Fetched>, serial: nat): seq<Elem> {
    seq(|all|, i requires 0 <= i < |all| => Elem(Owner(LeadKind(i), serial, 0), all[i].cell))
  }

  /** refreshStructural, all three fetches having succeeded. */
  function AfterGroups(c: Config, s: State, n: Fetched, svc: Fetched, nw: Fetched): State {
    var all := Groups(c, n, svc, nw);
    s.(store := s.store.(heap := PlaceLead(s.store.heap, all, s.rounds)),
       lead := LeadElems(all, s.rounds), rounds := s.rounds + 1, rawLead := RawValues(all), haveStructural := true)
  }

  /** The tasks of one poll, each with its object. */
  function Numbering(fetched: seq<FetchedTask>, poll: nat): seq<Task> {
    seq(|fetched|, i requires 0 <= i < |fetched| => fetched[i].task.(obj := ObjectId(poll, i)))
  }

  function PlaceTasks(h: Heap, fetched: seq<FetchedTask>, poll: nat): Heap {
    h + map i | 0 <= i < |fetched| :: Owner(TaskKind, poll, i) := fetched[i].fetched.objects
  }

  /** What was fetched is in memory. */
  function Placed(s: State, fetched: seq<FetchedTask>): State {
    s.(store := s.store.(heap := PlaceTasks(s.store.heap, fetched, s.polls)),
       shapes := s.shapes + (map i | 0 <= i < |fetched| :: ObjectId(s.polls, i) := fetched[i].fetched.cell),
       raws := s.raws + (map i | 0 <= i < |fetched| :: ObjectId(s.polls, i) := fetched[i].fetched.Raw()),
       polls := s.polls + 1)
  }

  /** The by-value copy of task object `o`. */
  function TaskElem(shapes: map<ObjectId, Cell>, o: ObjectId): Elem {
    Elem(Owner(TaskKind, o.poll, o.index), if o in shapes then shapes[o] else Null)
  }

  function ElemsOf(shown: seq<Task>, shapes: map<ObjectId, Cell>): seq<Elem> {
    seq(|shown|, j requires 0 <= j < |shown| => TaskElem(shapes, shown[j].obj))
  }

  function RawTasks(shown: seq<Task>, raws: map<ObjectId, Value>): seq<Value> {
    seq(|shown|, j requires 0 <= j < |shown| => if shown[j].obj in raws then raws[shown[j].obj] else Nil)
  }

  /** A new slice of task copies. */
  function Listed(s: State, shown: seq<Task>): State {
    s.(store := s.store.(arrays := s.store.arrays[s.arrays := ElemsOf(shown, s.shapes)]), arrays := s.arrays + 1)
  }

  /** The end of getTasksInfo: the result slice, with sanitizeTasks over it. An empty
      result is a nil slice. */
  function Shown(c: Config, s: State, shown: seq<Task>): State {
    if shown == [] then s.(tasks := None, rawTasks := [])
    else
      var t := Listed(s, shown);
      t.(store := SweepTasks(c.w, HideSweeps(c.Hidden()), t.store, s.arrays), tasks := Some(s.arrays), rawTasks := RawTasks(shown, s.raws))
  }

  /** The running tasks, then the newest stopped task of every slot. */
  predicate PollShows(cache: Cache, polled: seq<Task>, shown: seq<Task>) {
    Live(polled) <= shown && NewestPerSlot(Candidates(cache, Ids(Live(polled))), shown[|Live(polled)|..])
  }

  /** refreshTasks with getTasksInfo, which shows the tasks `shown`. */
  function AfterTasks(c: Config, s: State, fetched: seq<FetchedTask>, now: int, shown: seq<Task>): State {
    var cache := Polled(s.cache, Numbering(fetched, s.polls), now);
    Shown(c, Placed(s, fetched).(cache := cache, haveTasks := true), shown)
  }

  /** The snapshot that publish assembles, redacted in place. */
  function Assembled(c: Config, s: State): Shot {
    ClearPaths(c.w, c.paths, Shot(s.store, Snapshot(s.lead, s.tasks)))
  }

  /** The comparison with the last snapshot, in the memory that both share. */
  predicate Differs(s: State, data: Shot) {
    s.last.None? || data.Shows() != SnapContent(data.store, s.last.value)
  }

  /** publish. */
  function AfterPublish(c: Config, s: State, marshals: bool): State {
    if !Loaded(s) then s
    else
      var data := Assembled(c, s);
      if !Differs(s, data) || !marshals then s.(store := data.store)
      else s.(store := data.store, last := Some(data.snap), sent := s.sent + [data.Shows()])
  }

  // ----- what holds between steps -----

  /** What is in memory still redacts to what the raw value redacts to. */
  predicate LeadFaithful(w: World, sws: seq<Sweep>, h: Heap, lead: seq<Elem>, raw: seq<Value>) {
    && |lead| == |w.lead| && ElemsOk(w, true, h, lead)
    && EachLead(w, sws, Contents(h, lead)) == EachLead(w, sws, raw)
  }

  predicate Known(w: World, sws: seq<Sweep>, h: Heap, e: Elem, raw: Value) {
    && ElemOk(w, h, e) && e.owner.kind.TaskKind?
    && Effects(w, sws, TaskKind, Content(h, e)) == Effects(w, sws, TaskKind, raw)
  }

  predicate TasksKnown(w: World, sws: seq<Sweep>, h: Heap, shapes: map<ObjectId, Cell>, raws: map<ObjectId, Value>) {
    && shapes.Keys == raws.Keys
    && forall o | o in shapes :: Known(w, sws, h, TaskElem(shapes, o), raws[o])
  }

  /** The current tasks: hidden paths are done, the sensitive ones perhaps. */
  ghost predicate CurrentTasks(w: World, hidden: seq<Path>, paths: seq<Path>, st: Store, tasks: Option<nat>, raw: seq<Value>) {
    if tasks.None? then raw == []
    else tasks.value in st.arrays && raw != [] && HiddenDone(w, hidden, paths, TasksIn(st, tasks).value, raw)
  }

  ghost predicate HiddenDone(w: World, hidden: seq<Path>, paths: seq<Path>, ts: seq<Value>, raw: seq<Value>) {
    && EachTask(w, AllSweeps(w, hidden, paths), ts) == EachTask(w, AllSweeps(w, hidden, paths), raw)
    && forall j | 0 <= j < |ts| :: FixedBy(w, HideSweeps(hidden), SlotKind(j), ts[j])
  }

  /** The previous snapshot still has the content that was handed to the hub. */
  predicate LastIntact(w: World, sws: seq<Sweep>, st: Store, last: Option<Snapshot>, sent: seq<Value>) {
    if last.None? then sent == []
    else sent != [] && Settled(w, sws, st, last.value) && SnapContent(st, last.value) == sent[|sent| - 1]
  }

  predicate ObjectsKnown(cache: Cache, shapes: map<ObjectId, Cell>) {
    Keyed(cache) && forall id | id in cache :: cache[id].task.obj in shapes
  }

  /** Numbers below which memory is in use. */
  predicate Numbered(st: Store, rounds: nat, polls: nat, arrays: nat) {
    && (forall o | o in st.heap :: if o.kind.TaskKind? then o.serial < polls else o.serial < rounds)
    && (forall a | a in st.arrays :: a < arrays)
  }

  predicate MemoryInv(c: Config, s: State) {
    && StoreOk(c.w, s.store) && Numbered(s.store, s.rounds, s.polls, s.arrays)
    && TasksKnown(c.w, c.Sweeps(), s.store.heap, s.shapes, s.raws)
    && ObjectsKnown(s.cache, s.shapes)
  }

  ghost predicate GroupsInv(c: Config, s: State) {
    && (s.haveStructural ==> LeadFaithful(c.w, c.Sweeps(), s.store.heap, s.lead, s.rawLead))
    && CurrentTasks(c.w, c.Hidden(), c.paths, s.store, s.tasks, s.rawTasks)
  }

  predicate FrameInv(c: Config, s: State) {
    LastIntact(c.w, c.Sweeps(), s.store, s.last, s.sent)
  }

  ghost predicate Inv(c: Config, s: State) {
    c.Ok() && MemoryInv(c, s) && GroupsInv(c, s) && FrameInv(c, s)
  }

  // ----- mild changes keep it -----

  lemma GentleKeepsLead(w: World, sws: seq<Sweep>, h: Heap, h': Heap, lead: seq<Elem>, raw: seq<Value>)
    requires GentleHeap(w, sws, h, h') && LeadFaithful(w, sws, h, lead, raw)
    ensures LeadFaithful(w, sws, h', lead, raw)
  {
    forall i | 0 <= i < |lead|
      ensures ElemOk(w, h', lead[i])
      ensures EachLead(w, sws, Contents(h', lead))[i] == EachLead(w, sws, Contents(h, lead))[i]
    {
      assert ElemOk(w, h, lead[i]) && InSeat(Seat(true, i), lead[i]);
      MildInSeat(w, sws, h, h', LeadKind(i), lead[i]);
    }
    assert EachLead(w, sws, Contents(h', lead)) == EachLead(w, sws, Contents(h, lead));
  }

  lemma GentleKeepsKnown(w: World, sws: seq<Sweep>, h: Heap, h': Heap, shapes: map<ObjectId, Cell>, raws: map<ObjectId, Value>)
    requires GentleHeap(w, sws, h, h') && TasksKnown(w, sws, h, shapes, raws)
    ensures TasksKnown(w, sws, h', shapes, raws)
  {
    forall o | o in shapes ensures Known(w, sws, h', TaskElem(shapes, o), raws[o]) {
      assert Known(w, sws, h, TaskElem(shapes, o), raws[o]);
    }
  }

  lemma GentleKeepsLast(w: World, sws: seq<Sweep>, st: Store, st': Store, last: Option<Snapshot>, sent: seq<Value>)
    requires Gentle(w, sws, st, st') && LastIntact(w, sws, st, last, sent)
    ensures LastIntact(w, sws, st', last, sent)
  {
    if last.Some? {
      SettledStays(w, sws, st, st', last.value);
    }
  }

  lemma MildKeepsHidden(w: World, hidden: seq<Path>, paths: seq<Path>, ts: seq<Value>, us: seq<Value>, raw: seq<Value>)
    requires HiddenDone(w, hidden, paths, ts, raw) && MildAll(w, AllSweeps(w, hidden, paths), [], false, ts, us)
    ensures HiddenDone(w, hidden, paths, us, raw)
  {
    var all := AllSweeps(w, hidden, paths);
    forall j | 0 <= j < |ts|
      ensures EachTask(w, all, us)[j] == EachTask(w, all, ts)[j] && FixedBy(w, HideSweeps(hidden), SlotKind(j), us[j])
    {
      assert Mild(w, all, Seat(false, j), ts[j], us[j]);
      MildKeepsFixed(w, all, HideSweeps(hidden), SlotKind(j), ts[j], us[j]);
    }
    assert EachTask(w, all, us) == EachTask(w, all, ts);
  }

  lemma GentleKeepsTasks(w: World, hidden: seq<Path>, paths: seq<Path>, st: Store, st': Store, tasks: Option<nat>, raw: seq<Value>)
    requires Gentle(w, AllSweeps(w, hidden, paths), st, st') && CurrentTasks(w, hidden, paths, st, tasks, raw)
    ensures CurrentTasks(w, hidden, paths, st', tasks, raw)
  {
    if tasks.Some? {
      TasksChangeMildly(w, AllSweeps(w, hidden, paths), st, st', tasks);
      MildKeepsHidden(w, hidden, paths, TasksIn(st, tasks).value, TasksIn(st', tasks).value, raw);
    }
  }

  lemma GentleKeepsInv(c: Config, s: State, st: Store)
    requires Inv(c, s) && StoreOk(c.w, st) && Gentle(c.w, c.Sweeps(), s.store, st)
    ensures Inv(c, s.(store := st))
  {
    GentleKeepsKnown(c.w, c.Sweeps(), s.store.heap, st.heap, s.shapes, s.raws);
    GentleKeepsLast(c.w, c.Sweeps(), s.store, st, s.last, s.sent);
    GentleKeepsTasks(c.w, c.Hidden(), c.paths, s.store, st, s.tasks, s.rawTasks);
    if s.haveStructural {
      GentleKeepsLead(c.w, c.Sweeps(), s.store.heap, st.heap, s.lead, s.rawLead);
    }
  }

  // ----- allocation keeps it -----

  /** More objects and more arrays, the old ones as they were. */
  predicate Extends(st: Store, st': Store) {
    && (forall o | o in st.heap :: o in st'.heap && st'.heap[o] == st.heap[o])
    && (forall a | a in st.arrays :: a in st'.arrays && st'.arrays[a] == st.arrays[a])
  }

  lemma ExtendKeepsElems(w: World, lead: bool, st: Store, st': Store, es: seq<Elem>)
    requires Extends(st, st') && ElemsOk(w, lead, st.heap, es)
    ensures ElemsOk(w, lead, st'.heap, es) && Contents(st'.heap, es) == Contents(st.heap, es)
  {
    assert forall i | 0 <= i < |es| :: ElemOk(w, st.heap, es[i]);
    assert forall i | 0 <= i < |es| :: Contents(st'.heap, es)[i] == Contents(st.heap, es)[i];
  }

  lemma ExtendKeepsTasks(w: World, st: Store, st': Store, tasks: Option<nat>)
    requires Extends(st, st') && StoreOk(w, st) && (tasks.Some? ==> tasks.value in st.arrays)
    ensures TasksIn(st', tasks) == TasksIn(st, tasks)
  {
    if tasks.Some? {
      ExtendKeepsElems(w, false, st, st', st.arrays[tasks.value]);
    }
  }

  lemma ExtendKeepsKnown(w: World, sws: seq<Sweep>, st: Store, st': Store, shapes: map<ObjectId, Cell>, raws: map<ObjectId, Value>)
    requires Extends(st, st') && TasksKnown(w, sws, st.heap, shapes, raws)
    ensures TasksKnown(w, sws, st'.heap, shapes, raws)
  {
    forall o | o in shapes ensures Known(w, sws, st'.heap, TaskElem(shapes, o), raws[o]) {
      assert Known(w, sws, st.heap, TaskElem(shapes, o), raws[o]);
    }
  }

  lemma ExtendKeepsGroups(c: Config, s: State, st: Store)
    requires Inv(c, s) && Extends(s.store, st)
    ensures GroupsInv(c, s.(store := st)) && FrameInv(c, s.(store := st))
  {
    ExtendKeepsTasks(c.w, s.store, st, s.tasks);
    if s.haveStructural {
      ExtendKeepsElems(c.w, true, s.store, st, s.lead);
    }
    if s.last.Some? {
      ExtendKeepsElems(c.w, true, s.store, st, s.last.value.lead);
      ExtendKeepsTasks(c.w, s.store, st, s.last.value.tasks);
    }
  }

  lemma ExtendKeepsArrays(w: World, st: Store, st': Store)
    requires Extends(st, st') && StoreOk(w, st)
    ensures forall a | a in st.arrays :: ElemsOk(w, false, st'.heap, st.arrays[a])
  {
    forall a | a in st.arrays ensures ElemsOk(w, false, st'.heap, st.arrays[a]) {
      ExtendKeepsElems(w, false, st, st', st.arrays[a]);
    }
  }

  // ----- a structural round -----

  predicate GroupsTyped(c: Config, n: Option<Fetched>, s: Option<Fetched>, nw: Option<Fetched>) {
    && |c.w.lead| == |c.header| + 3
    && (nw.Some? ==> nw.value.Ok(c.w.lead[|c.header|].ty))
    && (n.Some? ==> n.value.Ok(c.w.lead[|c.header| + 1].ty))
    && (s.Some? ==> s.value.Ok(c.w.lead[|c.header| + 2].ty))
  }

  lemma PlacedLeadOk(w: World, sws: seq<Sweep>, h: Heap, all: seq<Fetched>, serial: nat)
    requires HeapOk(w, h) && |all| == |w.lead| && forall i | 0 <= i < |all| :: all[i].Ok(w.lead[i].ty)
    ensures HeapOk(w, PlaceLead(h, all, serial))
    ensures LeadFaithful(w, sws, PlaceLead(h, all, serial), LeadElems(all, serial), RawValues(all))
  {
    var h', lead := PlaceLead(h, all, serial), LeadElems(all, serial);
    forall o | o in h' ensures Typed(TypeOf(w, o.kind), h'[o]) {
      if o.kind.LeadKind? && o.kind.field < |all| && o == Owner(LeadKind(o.kind.field), serial, 0) {
        assert h'[o] == all[o.kind.field].objects;
      } else {
        assert o in h && h'[o] == h[o];
      }
    }
    forall i | 0 <= i < |all| ensures ElemOk(w, h', lead[i]) && Content(h', lead[i]) == all[i].Raw() {
      assert Owner(LeadKind(i), serial, 0) in h' && h'[Owner(LeadKind(i), serial, 0)] == all[i].objects;
    }
    assert Contents(h', lead) == RawValues(all);
  }

  lemma GroupsFit(c: Config, n: Fetched, svc: Fetched, nw: Fetched)
    requires c.Typed() && GroupsTyped(c, Some(n), Some(svc), Some(nw))
    ensures var all := Groups(c, n, svc, nw);
            |all| == |c.w.lead| && forall i | 0 <= i < |all| :: all[i].Ok(c.w.lead[i].ty)
  {
  }

  lemma PlaceLeadExtends(st: Store, all: seq<Fetched>, rounds: nat, polls: nat, arrays: nat)
    requires Numbered(st, rounds, polls, arrays)
    ensures var st' := st.(heap := PlaceLead(st.heap, all, rounds));
            Extends(st, st') && Numbered(st', rounds + 1, polls, arrays)
  {
  }

  lemma GroupsKeepInv(c: Config, s: State, n: Fetched, svc: Fetched, nw: Fetched)
    requires Inv(c, s) && GroupsTyped(c, Some(n), Some(svc), Some(nw))
    ensures Inv(c, AfterGroups(c, s, n, svc, nw))
  {
    var all, t := Groups(c, n, svc, nw), AfterGroups(c, s, n, svc, nw);
    GroupsFit(c, n, svc, nw);
    PlacedLeadOk(c.w, c.Sweeps(), s.store.heap, all, s.rounds);
    PlaceLeadExtends(s.store, all, s.rounds, s.polls, s.arrays);
    ExtendKeepsGroups(c, s, t.store);
    ExtendKeepsArrays(c.w, s.store, t.store);
    ExtendKeepsKnown(c.w, c.Sweeps(), s.store, t.store, s.shapes, s.raws);
  }

  // ----- a task poll -----

  predicate TasksTyped(c: Config, fetched: seq<FetchedTask>) {
    forall i | 0 <= i < |fetched| :: fetched[i].fetched.Ok(c.w.taskT)
  }

  lemma PlaceTasksOk(w: World, st: Store, fetched: seq<FetchedTask>, rounds: nat, polls: nat, arrays: nat)
    requires HeapOk(w, st.heap) && Numbered(st, rounds, polls, arrays)
    requires forall i | 0 <= i < |fetched| :: fetched[i].fetched.Ok(w.taskT)
    ensures var st' := st.(heap := PlaceTasks(st.heap, fetched, polls));
            HeapOk(w, st'.heap) && Extends(st, st') && Numbered(st', rounds, polls + 1, arrays)
  {
  }

  lemma PlacedKnown(c: Config, s: State, fetched: seq<FetchedTask>)
    requires MemoryInv(c, s) && TasksTyped(c, fetched)
    ensures var t := Placed(s, fetched); TasksKnown(c.w, c.Sweeps(), t.store.heap, t.shapes, t.raws)
  {
    var t := Placed(s, fetched);
    PlaceTasksOk(c.w, s.store, fetched, s.rounds, s.polls, s.arrays);
    ExtendKeepsKnown(c.w, c.Sweeps(), s.store, t.store, s.shapes, s.raws);
    forall o | o in t.shapes ensures Known(c.w, c.Sweeps(), t.store.heap, TaskElem(t.shapes, o), t.raws[o]) {
      if o in s.shapes {
        assert Known(c.w, c.Sweeps(), t.store.heap, TaskElem(s.shapes, o), s.raws[o]);
        assert Known(c.w, c.Sweeps(), s.store.heap, TaskElem(s.shapes, o), s.raws[o]);
        assert TaskElem(t.shapes, o) == TaskElem(s.shapes, o);
      } else {
        PlacedTask(s, fetched, o.index);
        FetchedIsKnown(c.w, c.Sweeps(), t.store.heap, Owner(TaskKind, s.polls, o.index), fetched[o.index].fetched);
      }
    }
  }

  lemma PlacedTask(s: State, fetched: seq<FetchedTask>, i: nat)
    requires i < |fetched|
    ensures var t, o, f := Placed(s, fetched), ObjectId(s.polls, i), fetched[i].fetched;
            && TaskElem(t.shapes, o) == Elem(Owner(TaskKind, s.polls, i), f.cell)
            && o in t.raws && t.raws[o] == f.Raw()
            && Owner(TaskKind, s.polls, i) in t.store.heap && t.store.heap[Owner(TaskKind, s.polls, i)] == f.objects
  {
    TaskInHeap(s.store.heap, fetched, s.polls, i);
  }

  lemma TaskInHeap(h: Heap, fetched: seq<FetchedTask>, poll: nat, i: nat)
    requires i < |fetched|
    ensures var o := Owner(TaskKind, poll, i);
            o in PlaceTasks(h, fetched, poll) && PlaceTasks(h, fetched, poll)[o] == fetched[i].fetched.objects
  {
  }

  lemma FetchedIsKnown(w: World, sws: seq<Sweep>, h: Heap, o: Owner, f: Fetched)
    requires o in h && o.kind.TaskKind? && h[o] == f.objects && f.Ok(w.taskT)
    ensures Known(w, sws, h, Elem(o, f.cell), f.Raw())
  {
  }

  lemma PlacedKeepsInv(c: Config, s: State, fetched: seq<FetchedTask>)
    requires Inv(c, s) && TasksTyped(c, fetched)
    ensures Inv(c, Placed(s, fetched))
  {
    var t := Placed(s, fetched);
    PlacedKnown(c, s, fetched);
    PlaceTasksOk(c.w, s.store, fetched, s.rounds, s.polls, s.arrays);
    ExtendKeepsGroups(c, s, t.store);
    ExtendKeepsArrays(c.w, s.store, t.store);
  }

  /** Everything a poll shows or caches is a task object in memory. */
  lemma ShownAreKnown(cache: Cache, polled: seq<Task>, now: int, shown: seq<Task>, shapes: map<ObjectId, Cell>)
    requires ObjectsKnown(cache, shapes) && forall t | t in polled :: t.obj in shapes
    requires PollShows(Polled(cache, polled, now), polled, shown)
    ensures ObjectsKnown(Polled(cache, polled, now), shapes)
    ensures forall t | t in shown :: t.obj in shapes
  {
    NoteAllKeyed(cache, polled, now);
    LiveFacts(polled);
    var live, stopped := Live(polled), shown[|Live(polled)|..];
    assert shown == live + stopped;
    forall t | t in shown ensures t.obj in shapes {
      if t in stopped {
        assert t in Candidates(Polled(cache, polled, now), Ids(live));
      } else {
        assert t in live;
      }
    }
  }

  /** Copies of known tasks, at their places, redact to what the fetched values do. */
  lemma ListedFaithful(c: Config, s: State, shown: seq<Task>)
    requires MemoryInv(c, s) && forall x | x in shown :: x.obj in s.shapes
    ensures var es := ElemsOf(shown, s.shapes);
            && ElemsOk(c.w, false, s.store.heap, es)
            && EachTask(c.w, c.Sweeps(), Contents(s.store.heap, es)) == EachTask(c.w, c.Sweeps(), RawTasks(shown, s.raws))
  {
    var w, sws, es, raw := c.w, c.Sweeps(), ElemsOf(shown, s.shapes), RawTasks(shown, s.raws);
    forall j | 0 <= j < |es|
      ensures ElemOk(w, s.store.heap, es[j])
      ensures Effects(w, sws, SlotKind(j), Content(s.store.heap, es[j])) == Effects(w, sws, SlotKind(j), raw[j])
    {
      assert shown[j] in shown;
      assert Known(w, sws, s.store.heap, TaskElem(s.shapes, shown[j].obj), s.raws[shown[j].obj]);
      SlotForgets(w, sws, sws, j, Content(s.store.heap, es[j]));
      SlotForgets(w, sws, sws, j, raw[j]);
    }
    assert EachTask(w, sws, Contents(s.store.heap, es)) == EachTask(w, sws, raw);
  }

  lemma ListedKeepsInv(c: Config, s: State, shown: seq<Task>)
    requires Inv(c, s) && ElemsOk(c.w, false, s.store.heap, ElemsOf(shown, s.shapes))
    ensures Inv(c, Listed(s, shown))
  {
    var t := Listed(s, shown);
    ExtendKeepsGroups(c, s, t.store);
    ExtendKeepsArrays(c.w, s.store, t.store);
  }

  lemma HideIsTame(w: World, hidden: seq<Path>, paths: seq<Path>)
    ensures AllTame(w, AllSweeps(w, hidden, paths), [], HideSweeps(hidden))
  {
  }

  /** sanitizeTasks over a slice leaves only the sensitive paths to clear from it. */
  lemma SanitizedTasks(w: World, hidden: seq<Path>, paths: seq<Path>, st: Store, a: nat, raw: seq<Value>)
    requires StoreOk(w, st) && a in st.arrays && raw != []
    requires EachTask(w, AllSweeps(w, hidden, paths), Contents(st.heap, st.arrays[a])) == EachTask(w, AllSweeps(w, hidden, paths), raw)
    ensures var st' := SweepTasks(w, HideSweeps(hidden), st, a);
            && StoreOk(w, st') && Gentle(w, AllSweeps(w, hidden, paths), st, st')
            && CurrentTasks(w, hidden, paths, st', Some(a), raw)
  {
    var all, hs, st' := AllSweeps(w, hidden, paths), HideSweeps(hidden), SweepTasks(w, HideSweeps(hidden), st, a);
    HideIsTame(w, hidden, paths);
    SweepTasksShows(w, all, [], hs, st, a);
    SweptIsMild(w, all, hs, false, st.heap, st.arrays[a], st'.heap);
    var before, after := Contents(st.heap, st.arrays[a]), Contents(st'.heap, st'.arrays[a]);
    forall j | 0 <= j < |before|
      ensures EachTask(w, all, after)[j] == EachTask(w, all, before)[j] && FixedBy(w, hs, SlotKind(j), after[j])
    {
      assert Mild(w, all, Seat(false, j), before[j], after[j]) && FixedBy(w, hs, Seat(false, j), after[j]);
    }
    assert EachTask(w, all, after) == EachTask(w, all, before);
  }

  lemma ShownKeepsInv(c: Config, s: State, shown: seq<Task>)
    requires Inv(c, s) && forall x | x in shown :: x.obj in s.shapes
    ensures Inv(c, Shown(c, s, shown))
  {
    if shown != [] {
      var raw, mid := RawTasks(shown, s.raws), Listed(s, shown);
      ListedFaithful(c, s, shown);
      ListedKeepsInv(c, s, shown);
      SanitizedTasks(c.w, c.Hidden(), c.paths, mid.store, s.arrays, raw);
      GentleKeepsInv(c, mid, SweepTasks(c.w, HideSweeps(c.Hidden()), mid.store, s.arrays));
    }
  }

  lemma PolledInMemory(s: State, fetched: seq<FetchedTask>)
    ensures forall x | x in Numbering(fetched, s.polls) :: x.obj in Placed(s, fetched).shapes
  {
  }

  lemma TasksKeepInv(c: Config, s: State, fetched: seq<FetchedTask>, now: int, shown: seq<Task>)
    requires Inv(c, s) && TasksTyped(c, fetched)
    requires var polled := Numbering(fetched, s.polls); PollShows(Polled(s.cache, polled, now), polled, shown)
    ensures Inv(c, AfterTasks(c, s, fetched, now, shown))
  {
    var polled, t := Numbering(fetched, s.polls), Placed(s, fetched);
    PlacedKeepsInv(c, s, fetched);
    PolledInMemory(s, fetched);
    ShownAreKnown(t.cache, polled, now, shown, t.shapes);
    CacheKeepsInv(c, t, Polled(s.cache, polled, now));
    ShownKeepsInv(c, t.(cache := Polled(s.cache, polled, now), haveTasks := true), shown);
  }

  lemma CacheKeepsInv(c: Config, s: State, cache: Cache)
    requires Inv(c, s) && ObjectsKnown(cache, s.shapes)
    ensures Inv(c, s.(cache := cache, haveTasks := true))
  {
  }

  // ----- a publish -----

  lemma {:induction false} HideSparesLead(w: World, hidden: seq<Path>, i: nat, x: Value)
    ensures Effects(w, HideSweeps(hidden), LeadKind(i), x) == x
    decreases |hidden|
  {
    if hidden != [] {
      assert HideSweeps(hidden)[1..] == HideSweeps(hidden[1..]);
      HideSparesLead(w, hidden[1..], i, x);
    }
  }

  /** For the leading fields, the sensitive paths are all there is. */
  lemma LeadNeedsPathsOnly(w: World, hidden: seq<Path>, paths: seq<Path>, xs: seq<Value>)
    ensures EachLead(w, AllSweeps(w, hidden, paths), xs) == EachLead(w, PathSweeps(w, paths), xs)
  {
    var all, ps := EachLead(w, AllSweeps(w, hidden, paths), xs), EachLead(w, PathSweeps(w, paths), xs);
    forall i | 0 <= i < |xs| ensures all[i] == ps[i] {
      EffectsAppend(w, HideSweeps(hidden), PathSweeps(w, paths), LeadKind(i), xs[i]);
      HideSparesLead(w, hidden, i, xs[i]);
    }
  }

  lemma TasksInTwoStages(w: World, hidden: seq<Path>, paths: seq<Path>, ts: seq<Value>)
    ensures EachTask(w, AllSweeps(w, hidden, paths), ts) == EachTask(w, PathSweeps(w, paths), EachTask(w, HideSweeps(hidden), ts))
  {
    var all, two := EachTask(w, AllSweeps(w, hidden, paths), ts), EachTask(w, PathSweeps(w, paths), EachTask(w, HideSweeps(hidden), ts));
    forall j | 0 <= j < |ts| ensures all[j] == two[j] {
      EffectsAppend(w, HideSweeps(hidden), PathSweeps(w, paths), SlotKind(j), ts[j]);
    }
  }

  lemma LeadComesOut(w: World, hidden: seq<Path>, paths: seq<Path>, xs: seq<Value>, ys: seq<Value>)
    requires MildAll(w, AllSweeps(w, hidden, paths), PathSweeps(w, paths), true, xs, ys)
    ensures ys == EachLead(w, AllSweeps(w, hidden, paths), xs)
  {
    var all := AllSweeps(w, hidden, paths);
    forall i | 0 <= i < |xs| ensures ys[i] == EachLead(w, all, xs)[i] {
      assert Mild(w, all, Seat(true, i), xs[i], ys[i]) && FixedBy(w, PathSweeps(w, paths), Seat(true, i), ys[i]);
      forall sw | sw in all ensures Effect(w, sw, LeadKind(i), ys[i]) == ys[i] {
      }
      NormalForm(w, all, LeadKind(i), xs[i], ys[i]);
    }
  }

  lemma TasksComeOut(w: World, hidden: seq<Path>, paths: seq<Path>, xs: seq<Value>, ys: seq<Value>, raw: seq<Value>)
    requires HiddenDone(w, hidden, paths, xs, raw) && MildAll(w, AllSweeps(w, hidden, paths), PathSweeps(w, paths), false, xs, ys)
    ensures ys == EachTask(w, AllSweeps(w, hidden, paths), raw)
  {
    var all := AllSweeps(w, hidden, paths);
    forall j | 0 <= j < |xs| ensures ys[j] == EachTask(w, all, xs)[j] {
      assert Mild(w, all, Seat(false, j), xs[j], ys[j]) && FixedBy(w, PathSweeps(w, paths), Seat(false, j), ys[j]);
      MildKeepsFixed(w, all, HideSweeps(hidden), SlotKind(j), xs[j], ys[j]);
      NormalForm(w, all, SlotKind(j), xs[j], ys[j]);
    }
    assert ys == EachTask(w, all, xs);
  }

  /** Once the sensitive paths are done with, what has become of the groups and tasks in
      memory shows as the redaction of the raw data. */
  lemma FrameIsRedaction(w: World, hidden: seq<Path>, paths: seq<Path>, x: Shot, y: Shot, lead: seq<Value>, tasks: seq<Value>)
    requires w.Ok() && x.Ok(w) && Redacts(w, AllSweeps(w, hidden, paths), PathSweeps(w, paths), x, y)
    requires y.snap.tasks == if exists p | p in paths :: CutsTasks(w, p) then None else x.snap.tasks
    requires LeadFaithful(w, AllSweeps(w, hidden, paths), x.store.heap, x.snap.lead, lead)
    requires CurrentTasks(w, hidden, paths, x.store, x.snap.tasks, tasks)
    ensures y.Shows() == Redacted(w, hidden, paths, lead, tasks)
  {
    var all := AllSweeps(w, hidden, paths);
    LeadComesOut(w, hidden, paths, Contents(x.store.heap, x.snap.lead), Contents(y.store.heap, y.snap.lead));
    assert |EachLead(w, all, lead)| == |lead|;
    RootClearAll(w, lead, if tasks == [] then None else Some(EachTask(w, HideSweeps(hidden), tasks)), paths);
    LeadNeedsPathsOnly(w, hidden, paths, lead);
    TasksInTwoStages(w, hidden, paths, tasks);
    if y.snap.tasks.Some? {
      TasksComeOut(w, hidden, paths, TasksIn(x.store, x.snap.tasks).value, TasksIn(y.store, x.snap.tasks).value, tasks);
    }
  }

  /** A snapshot that shows a redaction has nothing left to redact. */
  lemma RedactionIsSettled(w: World, hidden: seq<Path>, paths: seq<Path>, st: Store, s: Snapshot, lead: seq<Value>, tasks: seq<Value>)
    requires w.Ok() && SnapOk(w, st, s) && |lead| == |w.lead|
    requires SnapContent(st, s) == Redacted(w, hidden, paths, lead, tasks)
    ensures Settled(w, AllSweeps(w, hidden, paths), st, s)
  {
    var all, ps := AllSweeps(w, hidden, paths), PathSweeps(w, paths);
    var ts := if tasks == [] then None else Some(EachTask(w, HideSweeps(hidden), tasks));
    var shown := Contents(st.heap, s.lead);
    RootClearAll(w, lead, ts, paths);
    RootInjective(shown, TasksValue(TasksIn(st, s.tasks)), EachLead(w, ps, lead), TasksValue(TasksAfter(w, paths, ts)));
    LeadNeedsPathsOnly(w, hidden, paths, lead);
    EachLeadAgain(w, all, lead);
    if s.tasks.Some? {
      TasksInTwoStages(w, hidden, paths, tasks);
      EachTaskAgain(w, all, tasks);
    }
  }

  lemma EachLeadAgain(w: World, sws: seq<Sweep>, xs: seq<Value>)
    ensures EachLead(w, sws, EachLead(w, sws, xs)) == EachLead(w, sws, xs)
  {
    forall i | 0 <= i < |xs| ensures EachLead(w, sws, EachLead(w, sws, xs))[i] == EachLead(w, sws, xs)[i] {
      EffectsAbsorb(w, sws, sws, LeadKind(i), xs[i]);
    }
  }

  lemma EachTaskAgain(w: World, sws: seq<Sweep>, ts: seq<Value>)
    ensures EachTask(w, sws, EachTask(w, sws, ts)) == EachTask(w, sws, ts)
  {
    forall j | 0 <= j < |ts| ensures EachTask(w, sws, EachTask(w, sws, ts))[j] == EachTask(w, sws, ts)[j] {
      EffectsAbsorb(w, sws, sws, SlotKind(j), ts[j]);
    }
  }

  /** The snapshot that publish assembles shows the redaction of what was fetched. The
      redaction in place keeps everything else, whether or not anything is sent. */
  lemma AssembledShows(c: Config, s: State)
    requires Inv(c, s) && Loaded(s)
    ensures var data := Assembled(c, s);
            data.Ok(c.w) && data.Shows() == RedactedNow(c, s) && Inv(c, s.(store := data.store))
  {
    var x, data := Shot(s.store, Snapshot(s.lead, s.tasks)), Assembled(c, s);
    PathsAreListed(c);
    ClearPathsShows(c.w, c.Sweeps(), [], c.paths, x);
    FrameIsRedaction(c.w, c.Hidden(), c.paths, x, data, s.rawLead, s.rawTasks);
    GentleKeepsInv(c, s, data.store);
  }

  lemma PathsAreListed(c: Config)
    ensures forall p | p in c.paths :: PathSweep(c.w, p) in c.Sweeps()
  {
    forall p | p in c.paths ensures PathSweep(c.w, p) in c.Sweeps() {
      var i :| 0 <= i < |c.paths| && c.paths[i] == p;
      assert PathSweeps(c.w, c.paths)[i] == PathSweep(c.w, p);
    }
  }

  /** At the comparison in publish the last snapshot shows what was sent last, although
      the memory they share has just been cleared again; so the comparison tells
      whether there is something new to send. */
  lemma ComparisonIsFaithful(c: Config, s: State)
    requires Inv(c, s) && Loaded(s)
    ensures var data := Assembled(c, s);
            && (s.last.Some? <==> s.sent != [])
            && (s.last.Some? ==> SnapContent(data.store, s.last.value) == s.sent[|s.sent| - 1])
            && (Differs(s, data) <==> s.sent == [] || s.sent[|s.sent| - 1] != RedactedNow(c, s))
  {
    AssembledShows(c, s);
    assert FrameInv(c, s.(store := Assembled(c, s).store));
  }

  lemma PublishKeepsInv(c: Config, s: State, marshals: bool)
    requires Inv(c, s)
    ensures Inv(c, AfterPublish(c, s, marshals))
  {
    if Loaded(s) {
      var data := Assembled(c, s);
      AssembledShows(c, s);
      if Differs(s, data) && marshals {
        SendKeepsInv(c, s.(store := data.store), data.snap);
      }
    }
  }

  lemma SendKeepsInv(c: Config, s: State, data: Snapshot)
    requires Inv(c, s) && Loaded(s) && SnapOk(c.w, s.store, data)
    requires SnapContent(s.store, data) == RedactedNow(c, s)
    ensures Inv(c, s.(last := Some(data), sent := s.sent + [RedactedNow(c, s)]))
  {
    assert |EachLead(c.w, c.Sweeps(), s.rawLead)| == |s.rawLead|;
    assert |EachLead(c.w, c.Sweeps(), Contents(s.store.heap, s.lead))| == |s.lead|;
    RedactionIsSettled(c.w, c.Hidden(), c.paths, s.store, data, s.rawLead, s.rawTasks);
  }

  // ----- the code -----

  /** The loop over the sensitive paths in publish. */
  method RedactInPlace(c: Config, s: State) returns (data: Shot)
    ensures data == Assembled(c, s)
  {
    data := Shot(s.store, Snapshot(s.lead, s.tasks));
    for k := 0 to |c.paths|
      invariant ClearPaths(c.w, c.paths[k..], data) == Assembled(c, s)
    {
      assert c.paths[k..][0] == c.paths[k] && c.paths[k..][1..] == c.paths[k + 1..];
      data := ClearSnapshot(c.w, c.paths[k], data);
    }
  }

  /** The end of getTasksInfo. */
  method ShowTasks(c: Config, s: State, shown: seq<Task>) returns (t: State)
    ensures t == Shown(c, s, shown)
  {
    if |shown| == 0 {
      return s.(tasks := None, rawTasks := []);
    }
    t := Listed(s, shown);
    var st := SweepArray(c.w, HideSweeps(c.Hidden()), t.store, s.arrays);
    t := t.(store := st, tasks := Some(s.arrays), rawTasks := RawTasks(shown, s.raws));
  }

  /** refreshTasks with getTasksInfo. */
  method PollTasks(c: Config, s: State, fetched: seq<FetchedTask>, now: int) returns (t: State, shown: seq<Task>)
    ensures var polled := Numbering(fetched, s.polls); PollShows(Polled(s.cache, polled, now), polled, shown)
    ensures t == AfterTasks(c, s, fetched, now, shown)
  {
    var cache;
    cache, shown := GetTasksInfo(s.cache, Numbering(fetched, s.polls), now);
    t := ShowTasks(c, Placed(s, fetched).(cache := cache, haveTasks := true), shown);
  }
}
