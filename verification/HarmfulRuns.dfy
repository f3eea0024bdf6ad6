/** Over runs of the poller harmless is the exact condition, too. With a sensitive path
    that is not, some run disturbs the snapshot it compares with, and misses a change: a
    task that has stopped is shown far out, and then, out of the cache, at the place that
    the path clears; far out comes another that looks the way the clearing leaves the
    first. */
module HarmfulRuns {
  import opened Text
  import opened Values
  import opened Memory
  import opened Shallow
  import opened Snapshots
  import opened SnapshotClear
  import opened Slices
  import opened Traps
  import opened StoppedTasks
  import opened Inspector
  import opened Polling

  // ----- the properties -----

  /** In this run, `m` is the state in which tick `j` compares. */
  ghost predicate Compares(c: Config, states: seq<State>, ticks: seq<Tick>, j: nat, m: State) {
    && IsPolling(c, states, ticks) && j < |ticks|
    && Succeeds(ticks[j]) && Refreshed(c, states[j], ticks[j], m) && Loaded(m)
  }

  /** There the last snapshot shows what was sent last. */
  predicate ShowsSent(c: Config, sent: seq<Value>, m: State) {
    m.last.Some? ==> sent != [] && SnapContent(Assembled(c, m).store, m.last.value) == sent[|sent| - 1]
  }

  ghost predicate AlwaysIntact(c: Config) {
    forall states: seq<State>, ticks: seq<Tick>, j: nat, m: State | Compares(c, states, ticks, j, m) ::
      ShowsSent(c, states[j].sent, m)
  }

  /** A tick publishes exactly when there is something new to show. */
  predicate Publishes(c: Config, states: seq<State>, ticks: seq<Tick>, j: nat)
    requires j < |ticks| < |states|
  {
    |states[j + 1].sent| > |states[j].sent| <==> News(c, states[j], ticks[j], states[j + 1])
  }

  ghost predicate NeverMisses(c: Config) {
    forall states: seq<State>, ticks: seq<Tick>, j: nat | IsPolling(c, states, ticks) && j < |ticks| && ticks[j].marshals ::
      Publishes(c, states, ticks, j)
  }

  /** No poll lists an identifier twice. */
  predicate ListsOnce(tick: Tick) {
    CompletePoll(tick) ==>
      forall i, j | 0 <= i < j < |tick.fetched.value| :: tick.fetched.value[i].task.id != tick.fetched.value[j].task.id
  }

  // ----- polls -----

  predicate AllRun(ts: seq<Task>) {
    forall t | t in ts :: |t.id| > 0 && t.id[0] == 'a' && IsLive(t) && !HasStopped(t)
  }

  /** Stopped just now, with identifiers of their own. */
  predicate AllStopped(us: seq<Task>) {
    && (forall u | u in us :: |u.id| > 0 && u.id[0] != 'a' && HasStopped(u) && !IsLive(u) && u.updatedAt == 0)
    && (forall i, j | 0 <= i < j < |us| :: us[i].id != us[j].id && SlotKey(us[i]) != SlotKey(us[j]))
  }

  lemma {:induction false} NoteAllAppend(cache: Cache, ts: seq<Task>, us: seq<Task>, now: int)
    ensures NoteAll(cache, ts + us, now) == NoteAll(NoteAll(cache, ts, now), us, now)
  {
    if us == [] {
      assert ts + us == ts;
    } else {
      assert (ts + us)[..|ts + us| - 1] == ts + us[..|us| - 1];
      NoteAllAppend(cache, ts, us[..|us| - 1], now);
    }
  }

  lemma {:induction false} AllLive(ts: seq<Task>)
    requires forall t | t in ts :: IsLive(t)
    ensures Live(ts) == ts
  {
    if ts != [] {
      var init, t := ts[..|ts| - 1], ts[|ts| - 1];
      AllLive(init);
      assert ts == init + [t] && t in ts;
    }
  }

  lemma {:induction false} LiveAppend(ts: seq<Task>, us: seq<Task>)
    requires forall u | u in us :: !IsLive(u)
    ensures Live(ts + us) == Live(ts)
  {
    if us == [] {
      assert ts + us == ts;
    } else {
      assert (ts + us)[..|ts + us| - 1] == ts + us[..|us| - 1];
      LiveAppend(ts, us[..|us| - 1]);
    }
  }

  lemma {:induction false} NoneNoted(cache: Cache, ts: seq<Task>, now: int)
    requires forall t | t in ts :: !HasStopped(t)
    ensures NoteAll(cache, ts, now) == cache
  {
    if ts != [] {
      NoneNoted(cache, ts[..|ts| - 1], now);
    }
  }

  /** The cache holds just these tasks, seen now. */
  predicate HoldsTasks(cache: Cache, us: seq<Task>) {
    && (forall u | u in us :: u.id in cache && cache[u.id] == Cached(u, 0))
    && (forall id | id in cache :: exists u | u in us :: u.id == id)
  }

  lemma {:induction false} AllNoted(cache: Cache, was: seq<Task>, us: seq<Task>)
    requires AllStopped(was + us) && HoldsTasks(cache, was)
    ensures HoldsTasks(NoteAll(cache, us, 0), was + us)
  {
    if us == [] {
      assert was + us == was;
    } else {
      var init, u := us[..|us| - 1], us[|us| - 1];
      assert was + us == was + init + [u];
      FewerStopped(was + init, u);
      AllNoted(cache, was, init);
      OneNoted(NoteAll(cache, init, 0), was + init, u);
    }
  }

  lemma FewerStopped(us: seq<Task>, u: Task)
    requires AllStopped(us + [u])
    ensures AllStopped(us) && forall t | t in us :: t.id != u.id
  {
    var all := us + [u];
    assert forall t | t in us :: t in all;
    assert forall i | 0 <= i < |us| :: all[i] == us[i];
    forall t | t in us ensures t.id != u.id {
      var i :| 0 <= i < |us| && us[i] == t;
      assert all[i].id != all[|us|].id;
    }
  }

  lemma OneNoted(cache: Cache, us: seq<Task>, u: Task)
    requires HoldsTasks(cache, us) && HasStopped(u) && u.updatedAt == 0 && forall t | t in us :: t.id != u.id
    ensures HoldsTasks(Note(cache, u, 0), us + [u])
  {
    assert u.id !in cache;
    var cache' := Note(cache, u, 0);
    forall id | id in cache' ensures exists t | t in us + [u] :: t.id == id {
      if id in cache {
        var t :| t in us && t.id == id;
        assert t in us + [u];
      } else {
        assert u in us + [u];
      }
    }
  }

  /** Tasks of different slots are all shown. */
  lemma AllShown(us: seq<Task>)
    requires AllStopped(us)
    ensures NewestPerSlot((set u | u in us), us)
  {
    forall u | u in us ensures ShowsSlot(us, SlotKey(u)) {
    }
  }

  lemma CandidatesAre(cache: Cache, us: seq<Task>, ts: seq<Task>)
    requires HoldsTasks(cache, us) && AllStopped(us) && AllRun(ts)
    ensures Candidates(cache, Ids(ts)) == (set u | u in us)
  {
    forall u | u in us ensures u in Candidates(cache, Ids(ts)) {
      assert cache[u.id].task == u && u.id !in Ids(ts);
    }
    forall t | t in Candidates(cache, Ids(ts)) ensures t in us {
      var id :| id in cache && cache[id].task == t;
      var u :| u in us && u.id == id;
    }
  }

  lemma NothingEvicted(cache: Cache, us: seq<Task>)
    requires HoldsTasks(cache, us)
    ensures Evict(cache, 0) == cache
  {
    forall id | id in cache ensures cache[id].firstSeen == 0 {
      var u :| u in us && u.id == id;
    }
  }

  /** A poll lists running tasks `ts` and then stopped ones `us`, and the cache held the
      stopped ones `before`: what it caches. */
  lemma PollCaches(cache: Cache, before: seq<Task>, ts: seq<Task>, us: seq<Task>)
    requires HoldsTasks(cache, before) && AllRun(ts) && AllStopped(before + us)
    ensures HoldsTasks(Polled(cache, ts + us, 0), before + us)
  {
    NoteAllAppend(cache, ts, us, 0);
    NoneNoted(cache, ts, 0);
    AllNoted(cache, before, us);
    NothingEvicted(NoteAll(cache, us, 0), before + us);
  }

  /** And what it shows. */
  lemma PollLists(cache: Cache, before: seq<Task>, ts: seq<Task>, us: seq<Task>)
    requires HoldsTasks(cache, before + us) && AllRun(ts) && AllStopped(before + us)
    ensures PollShows(cache, ts + us, ts + (before + us))
  {
    var stopped := before + us;
    assert forall u | u in us :: u in stopped;
    LiveAppend(ts, us);
    AllLive(ts);
    CandidatesAre(cache, stopped, ts);
    AllShown(stopped);
    assert (ts + stopped)[|ts|..] == stopped;
  }

  // ----- what the two polls list -----

  function Runner(i: nat): Task {
    Task("a" + Itoa(i), "s", "n", 0, Running, Running, 0, 0, ObjectId(0, 0))
  }

  function StoppedTask(id: string): Task {
    Task(id, id, "n", 0, Other("shutdown"), Failed, 0, 0, ObjectId(0, 0))
  }

  function Blank(w: World): Fetched {
    Fetched(ZeroCell(w.taskT), map[])
  }

  /** Running tasks, the one at place `K()` with the value in question, and far out a
      stopped one with the same. */
  function FirstList(x: Trap): seq<FetchedTask>
    requires x.Shaped()
  {
    seq(x.N() + 1, i requires 0 <= i <= x.N() =>
      FetchedTask(if i < x.N() then Runner(i) else StoppedTask("x"),
                  if i == x.K() || i == x.N() then Fetched(x.cell, x.m) else Blank(x.c.w)))
  }

  function StoppedId(x: Trap, i: nat): string {
    if i == x.N() - 1 then "y" else "b" + Itoa(i)
  }

  /** Running tasks up to place `K()`, then stopped ones, the last with the value that
      redaction left of the first. */
  function SecondList(x: Trap): seq<FetchedTask>
    requires x.Shaped()
  {
    seq(x.N(), i requires 0 <= i < x.N() =>
      FetchedTask(if i < x.K() then Runner(i) else StoppedTask(StoppedId(x, i)),
                  if i == x.N() - 1 && i >= x.K() then Fetched(x.cell, x.After()) else Blank(x.c.w)))
  }

  function Early(x: Trap): Task {
    StoppedTask("x").(obj := ObjectId(0, x.N()))
  }

  function FirstShown(x: Trap): seq<Task>
    requires x.Shaped()
  {
    Numbering(FirstList(x), 0)
  }

  function SecondNumbered(x: Trap): seq<Task>
    requires x.Shaped()
  {
    Numbering(SecondList(x), 1)
  }

  /** The running tasks, the one out of the cache, and the other stopped ones. */
  function SecondShown(x: Trap): seq<Task>
    requires x.Shaped() && x.K() <= x.N()
  {
    SecondNumbered(x)[..x.K()] + ([Early(x)] + SecondNumbered(x)[x.K()..])
  }

  lemma KeyTellsId(a: Task, b: Task)
    requires a.slot == 0 && b.slot == 0 && a.nodeId == "n" && b.nodeId == "n" && SlotKey(a) == SlotKey(b)
    ensures a.serviceId == b.serviceId
  {
    assert SlotKey(a)[..|SlotKey(a)| - 2] == a.serviceId && SlotKey(b)[..|SlotKey(b)| - 2] == b.serviceId;
  }

  lemma StoppedIdsDiffer(x: Trap, i: nat, j: nat)
    requires i < j < x.N()
    ensures StoppedId(x, i) != StoppedId(x, j)
  {
    if j < x.N() - 1 && StoppedId(x, i) == StoppedId(x, j) {
      assert StoppedId(x, i)[1..] == Itoa(i) && StoppedId(x, j)[1..] == Itoa(j);
      ItoaInjective(i, j);
    }
  }

  lemma RunnersDiffer(i: nat, j: nat)
    requires Runner(i).id == Runner(j).id
    ensures i == j
  {
    assert Runner(i).id[1..] == Itoa(i) && Runner(j).id[1..] == Itoa(j);
    ItoaInjective(i, j);
  }

  lemma FirstParts(x: Trap)
    requires x.Shaped()
    ensures var ts := FirstShown(x)[..x.N()]; AllRun(ts) && FirstShown(x) == ts + [Early(x)] && AllStopped([Early(x)])
  {
  }

  /** The stopped tasks of the second poll, the cached one first. */
  function StoppedAt(x: Trap, i: nat): Task
    requires x.Shaped()
  {
    if i == 0 then Early(x) else StoppedTask(StoppedId(x, x.K() + i - 1)).(obj := ObjectId(1, x.K() + i - 1))
  }

  lemma SecondStoppedIs(x: Trap, i: nat)
    requires x.Shaped() && x.K() <= i < x.N()
    ensures |SecondNumbered(x)| == x.N() && SecondNumbered(x)[i] == StoppedTask(StoppedId(x, i)).(obj := ObjectId(1, i))
  {
  }

  lemma StoppedAre(x: Trap)
    requires x.Shaped() && x.K() < x.N()
    ensures var all := [Early(x)] + SecondNumbered(x)[x.K()..];
            |all| == x.N() - x.K() + 1 && forall i | 0 <= i < |all| :: all[i] == StoppedAt(x, i)
  {
    var all := [Early(x)] + SecondNumbered(x)[x.K()..];
    SecondStoppedIs(x, x.K());
    forall i | 0 <= i < |all| ensures all[i] == StoppedAt(x, i) {
      FirstThenTail(Early(x), SecondNumbered(x), x.K(), i);
      if i > 0 {
        SecondStoppedIs(x, x.K() + i - 1);
      }
    }
  }

  lemma FirstThenTail<T>(a: T, s: seq<T>, k: nat, i: nat)
    requires k <= |s| && i <= |s| - k
    ensures ([a] + s[k..])[i] == if i == 0 then a else s[k + i - 1]
  {
  }

  lemma StoppedAtIds(x: Trap, i: nat, j: nat)
    requires x.Shaped() && i < j <= x.N() - x.K()
    ensures StoppedAt(x, i).id != StoppedAt(x, j).id
  {
    if i == 0 {
      assert StoppedAt(x, i).id[0] == 'x' && StoppedAt(x, j).id[0] != 'x';
    } else {
      StoppedIdsDiffer(x, x.K() + i - 1, x.K() + j - 1);
    }
  }

  lemma StoppedDiffer(x: Trap, i: nat, j: nat)
    requires x.Shaped() && i < j <= x.N() - x.K()
    ensures StoppedAt(x, i).id != StoppedAt(x, j).id && SlotKey(StoppedAt(x, i)) != SlotKey(StoppedAt(x, j))
  {
    StoppedAtIds(x, i, j);
    var t, u := StoppedAt(x, i), StoppedAt(x, j);
    assert t.serviceId == t.id && u.serviceId == u.id;
    if SlotKey(t) == SlotKey(u) {
      KeyTellsId(t, u);
    }
  }

  lemma StoppedHasStopped(x: Trap, i: nat)
    requires x.Shaped()
    ensures var u := StoppedAt(x, i); |u.id| > 0 && u.id[0] != 'a' && HasStopped(u) && !IsLive(u) && u.updatedAt == 0
  {
  }

  lemma SecondParts(x: Trap)
    requires x.Shaped() && x.K() < x.N()
    ensures AllRun(SecondNumbered(x)[..x.K()]) && AllStopped([Early(x)] + SecondNumbered(x)[x.K()..])
  {
    var all := [Early(x)] + SecondNumbered(x)[x.K()..];
    StoppedAre(x);
    forall u | u in all ensures |u.id| > 0 && u.id[0] != 'a' && HasStopped(u) && !IsLive(u) && u.updatedAt == 0 {
      var i :| 0 <= i < |all| && all[i] == u;
      StoppedHasStopped(x, i);
    }
    forall i, j | 0 <= i < j < |all| ensures all[i].id != all[j].id && SlotKey(all[i]) != SlotKey(all[j]) {
      StoppedDiffer(x, i, j);
    }
    RunningFirst(x);
  }

  lemma RunningFirst(x: Trap)
    requires x.Shaped() && x.K() < x.N()
    ensures AllRun(SecondNumbered(x)[..x.K()])
  {
  }

  lemma FirstListsOnce(x: Trap, i: nat, j: nat)
    requires x.Shaped() && i < j <= x.N()
    ensures FirstList(x)[i].task.id != FirstList(x)[j].task.id
  {
    if j < x.N() {
      if Runner(i).id == Runner(j).id {
        RunnersDiffer(i, j);
      }
    } else {
      assert FirstList(x)[j].task == StoppedTask("x") && FirstList(x)[i].task == Runner(i);
      assert Runner(i).id[0] == 'a' && StoppedTask("x").id[0] == 'x';
    }
  }

  lemma SecondListsOnce(x: Trap, i: nat, j: nat)
    requires x.Shaped() && i < j < x.N()
    ensures SecondList(x)[i].task.id != SecondList(x)[j].task.id
  {
    if j < x.K() {
      if Runner(i).id == Runner(j).id {
        RunnersDiffer(i, j);
      }
    } else if i >= x.K() {
      StoppedIdsDiffer(x, i, j);
    } else {
      assert Runner(i).id[0] == 'a' && StoppedId(x, j)[0] != 'a';
    }
  }

  // ----- what a poll puts into memory -----

  /** Task `i` of a poll is in memory as it was fetched. */
  predicate Put(t: State, poll: nat, i: nat, f: Fetched) {
    && TaskElem(t.shapes, ObjectId(poll, i)) == Elem(Owner(TaskKind, poll, i), f.cell)
    && Has(t.store.heap, Owner(TaskKind, poll, i), f.objects)
    && ObjectId(poll, i) in t.raws && t.raws[ObjectId(poll, i)] == f.Raw()
  }

  lemma AllPut(s: State, fetched: seq<FetchedTask>)
    ensures forall i | 0 <= i < |fetched| :: Put(Placed(s, fetched), s.polls, i, fetched[i].fetched)
  {
    forall i | 0 <= i < |fetched| ensures Put(Placed(s, fetched), s.polls, i, fetched[i].fetched) {
      PlacedTask(s, fetched, i);
    }
  }

  /** What an earlier poll put into memory stays. */
  lemma OlderKept(s: State, fetched: seq<FetchedTask>)
    ensures forall o: Owner, m: Objects | o.serial < s.polls && Has(s.store.heap, o, m) :: Has(Placed(s, fetched).store.heap, o, m)
    ensures forall o: ObjectId | o.poll < s.polls :: TaskElem(Placed(s, fetched).shapes, o) == TaskElem(s.shapes, o)
  {
  }

  lemma FirstInMemoryAt(x: Trap, t: State, i: nat)
    requires x.Shaped() && i <= x.N() && Put(t, 0, i, FirstList(x)[i].fetched)
    ensures FirstShown(x)[i].obj == ObjectId(0, i)
    ensures TaskElem(t.shapes, ObjectId(0, i)) == First(x).Elems()[i] && Has(t.store.heap, First(x).owners[i], First(x).objs[i])
  {
    var f := FirstList(x)[i].fetched;
    assert First(x).cells[i] == f.cell && First(x).objs[i] == f.objects;
  }

  lemma FirstInMemory(x: Trap, t: State)
    requires x.Shaped() && forall i | 0 <= i <= x.N() :: Put(t, 0, i, FirstList(x)[i].fetched)
    ensures ElemsOf(FirstShown(x), t.shapes) == First(x).Elems() && Holds(t.store.heap, First(x))
    ensures TaskElem(t.shapes, Early(x).obj) == Elem(Owner(TaskKind, 0, x.N()), x.cell)
  {
    forall i | 0 <= i <= x.N()
      ensures ElemsOf(FirstShown(x), t.shapes)[i] == First(x).Elems()[i] && Has(t.store.heap, First(x).owners[i], First(x).objs[i])
    {
      FirstInMemoryAt(x, t, i);
    }
    FirstInMemoryAt(x, t, x.N());
  }

  lemma SecondShownAt(x: Trap, i: nat)
    requires x.Shaped() && x.K() < x.N() && i <= x.N()
    ensures |SecondShown(x)| == x.N() + 1
    ensures SecondShown(x)[i].obj == if i < x.K() then ObjectId(1, i) else if i == x.K() then ObjectId(0, x.N()) else ObjectId(1, i - 1)
  {
  }

  predicate EarlyKept(x: Trap, t: State) {
    TaskElem(t.shapes, Early(x).obj) == Elem(Owner(TaskKind, 0, x.N()), x.cell) && Has(t.store.heap, Owner(TaskKind, 0, x.N()), x.m)
  }

  /** What is shown at place `i` was listed at `j`. */
  lemma SecondListedAt(x: Trap, i: nat, j: nat)
    requires x.Shaped() && x.K() < x.N() && i <= x.N() && i != x.K() && j == if i < x.K() then i else i - 1
    ensures var f := SecondList(x)[j].fetched;
            Second(x).owners[i] == Owner(TaskKind, 1, j) && Second(x).cells[i] == f.cell && Second(x).objs[i] == f.objects
  {
  }

  lemma SecondInMemoryAt(x: Trap, t: State, i: nat)
    requires x.Shaped() && x.K() < x.N() && i <= x.N() && EarlyKept(x, t)
    requires forall j | 0 <= j < x.N() :: Put(t, 1, j, SecondList(x)[j].fetched)
    ensures |SecondShown(x)| == x.N() + 1
    ensures TaskElem(t.shapes, SecondShown(x)[i].obj) == Second(x).Elems()[i] && Has(t.store.heap, Second(x).owners[i], Second(x).objs[i])
  {
    SecondShownAt(x, i);
    if i != x.K() {
      var j := if i < x.K() then i else i - 1;
      SecondListedAt(x, i, j);
      assert Put(t, 1, j, SecondList(x)[j].fetched);
    }
  }

  lemma SecondInMemory(x: Trap, t: State)
    requires x.Shaped() && x.K() < x.N() && EarlyKept(x, t)
    requires forall j | 0 <= j < x.N() :: Put(t, 1, j, SecondList(x)[j].fetched)
    ensures ElemsOf(SecondShown(x), t.shapes) == Second(x).Elems() && Holds(t.store.heap, Second(x))
    ensures |RawTasks(SecondShown(x), t.raws)| == x.N() + 1 && RawTasks(SecondShown(x), t.raws)[x.N()] == x.Erased()
  {
    forall i | 0 <= i <= x.N()
      ensures |SecondShown(x)| == x.N() + 1
      ensures ElemsOf(SecondShown(x), t.shapes)[i] == Second(x).Elems()[i] && Has(t.store.heap, Second(x).owners[i], Second(x).objs[i])
    {
      SecondInMemoryAt(x, t, i);
    }
    SecondShownAt(x, x.N());
    assert Put(t, 1, x.N() - 1, SecondList(x)[x.N() - 1].fetched);
  }

  /** What a poll leaves, given the slice it shows. */
  ghost predicate PollLeaves(c: Config, placed: State, slice: Slice, t: State)
    requires slice.Ok()
  {
    var done := After(c.w, HideSweeps(c.Hidden()), slice);
    && t.store.arrays == placed.store.arrays[placed.arrays := done.Elems()]
    && Holds(t.store.heap, done) && Besides(placed.store.heap, t.store.heap, slice.owners)
    && t.arrays == placed.arrays + 1 && t.tasks == Some(placed.arrays)
  }

  lemma ShownLeaves(c: Config, s: State, shown: seq<Task>, slice: Slice)
    requires shown != [] && slice.Ok() && ElemsOf(shown, s.shapes) == slice.Elems() && Holds(s.store.heap, slice)
    ensures var t := Shown(c, s, shown);
            && PollLeaves(c, s, slice, t) && t.rawTasks == RawTasks(shown, s.raws)
            && t == s.(store := t.store, arrays := t.arrays, tasks := t.tasks, rawTasks := t.rawTasks)
  {
    var listed, hs := Listed(s, shown), HideSweeps(c.Hidden());
    SweepTasksSlice(c.w, hs, listed.store, s.arrays, slice);
    var es := After(c.w, hs, slice).Elems();
    assert s.store.arrays[s.arrays := slice.Elems()][s.arrays := es] == s.store.arrays[s.arrays := es];
  }

  // ----- what holds after the round, after the first poll, after its publish, and when
  // ----- the second poll is compared

  predicate Common(x: Trap, s: State) {
    LeadOnly(s.lead) && |s.rawLead| == |x.c.w.lead| && s.haveStructural
  }

  predicate Started(x: Trap, s: State) {
    && Common(x, s) && s.polls == 0 && s.arrays == 0 && s.store.arrays == map[] && s.cache == map[]
    && s.last == None && s.sent == [] && !s.haveTasks
  }

  ghost predicate PolledOnce(x: Trap, s: State)
    requires x.Shaped()
  {
    var slice := After(x.c.w, HideSweeps(x.c.Hidden()), First(x));
    && Common(x, s) && s.haveTasks && s.polls == 1 && s.arrays == 1 && HoldsTasks(s.cache, [Early(x)])
    && TaskElem(s.shapes, Early(x).obj) == Elem(Owner(TaskKind, 0, x.N()), x.cell)
    && s.tasks == Some(0) && s.store.arrays == map[0 := slice.Elems()] && Holds(s.store.heap, slice)
    && s.last == None && s.sent == []
  }

  predicate FrameShows(sent: seq<Value>, lead: seq<Value>, ts: seq<Value>, n: nat, v: Value) {
    sent == [Root(lead, List(ts))] && |ts| == n + 1 && ts[n] == v
  }

  /** The last snapshot was sent with the far task as it was fetched. */
  ghost predicate SentWhole(x: Trap, s: State) {
    && s.last == Some(Snapshot(LeadAfter(x.c.w, x.c.paths, s.lead), Some(0)))
    && exists lead, ts :: FrameShows(s.sent, lead, ts, x.N(), x.Whole())
  }

  ghost predicate SentOnce(x: Trap, s: State)
    requires x.Shaped()
  {
    && Common(x, s) && s.haveTasks && s.polls == 1 && s.arrays == 1 && HoldsTasks(s.cache, [Early(x)])
    && TaskElem(s.shapes, Early(x).obj) == Elem(Owner(TaskKind, 0, x.N()), x.cell)
    && s.store.arrays == map[0 := FirstDone(x).Elems()] && Holds(s.store.heap, FirstDone(x)) && SentWhole(x, s)
  }

  /** The other tasks of the first slice, as redaction left them. */
  predicate FirstLeft(x: Trap, h: Heap)
    requires x.Shaped()
  {
    forall i | 0 <= i < x.N() :: Has(h, Owner(TaskKind, 0, i), FirstDone(x).objs[i])
  }

  ghost predicate PolledTwice(x: Trap, s: State)
    requires x.Shaped()
  {
    var slice := After(x.c.w, HideSweeps(x.c.Hidden()), Second(x));
    && Common(x, s) && s.haveTasks && s.tasks == Some(1) && SentWhole(x, s)
    && s.store.arrays == map[0 := FirstDone(x).Elems(), 1 := slice.Elems()] && Holds(s.store.heap, slice) && FirstLeft(x, s.store.heap)
    && |s.rawTasks| == x.N() + 1 && s.rawTasks[x.N()] == x.Erased()
  }

  // ----- the first poll and its publish -----

  /** What a poll does besides showing tasks. */
  function Noted(s: State, fetched: seq<FetchedTask>): State {
    Placed(s, fetched).(cache := Polled(s.cache, Numbering(fetched, s.polls), 0), haveTasks := true)
  }

  lemma FirstPoll(x: Trap, s: State)
    requires x.Ok() && Started(x, s)
    ensures PolledOnce(x, AfterTasks(x.c, s, FirstList(x), 0, FirstShown(x)))
  {
    var t := Noted(s, FirstList(x));
    AllPut(s, FirstList(x));
    FirstInMemory(x, t);
    FirstParts(x);
    PollCaches(map[], [], FirstShown(x)[..x.N()], [Early(x)]);
    assert [] + [Early(x)] == [Early(x)];
    ShownLeaves(x.c, t, FirstShown(x), First(x));
  }

  /** What a publish makes of the slice that a poll listed. */
  lemma SliceCleared(x: Trap, s: State, a: nat, slice: Slice, done: Slice)
    requires x.Ok() && slice.Ok() && After(x.c.w, x.c.Sweeps(), slice) == done
    requires Shows(Shot(s.store, Snapshot(s.lead, s.tasks)), a, After(x.c.w, HideSweeps(x.c.Hidden()), slice))
    ensures var data := Assembled(x.c, s);
            && data.snap == Snapshot(LeadAfter(x.c.w, x.c.paths, s.lead), Some(a))
            && data.store.arrays == s.store.arrays[a := done.Elems()] && Holds(data.store.heap, done)
            && Besides(s.store.heap, data.store.heap, slice.owners)
  {
    NothingCuts(x);
    ClearPathsSlice(x.c.w, x.c.paths, Shot(s.store, Snapshot(s.lead, s.tasks)), a, After(x.c.w, HideSweeps(x.c.Hidden()), slice));
    HiddenThenPaths(x, slice);
  }

  lemma FirstIsListed(x: Trap, s: State)
    requires x.Shaped() && PolledOnce(x, s)
    ensures s.store.arrays.Keys == {0}
    ensures Shows(Shot(s.store, Snapshot(s.lead, s.tasks)), 0, After(x.c.w, HideSweeps(x.c.Hidden()), First(x)))
  {
  }

  lemma OneArray(arrays: map<nat, seq<Elem>>, es: seq<Elem>)
    requires arrays.Keys == {0}
    ensures arrays[0 := es] == map[0 := es]
  {
  }

  lemma FirstCleared(x: Trap, s: State)
    requires x.Ok() && PolledOnce(x, s)
    ensures var data := Assembled(x.c, s);
            && data.snap == Snapshot(LeadAfter(x.c.w, x.c.paths, s.lead), Some(0))
            && data.store.arrays == map[0 := FirstDone(x).Elems()] && Holds(data.store.heap, FirstDone(x))
  {
    FirstRedacted(x);
    FirstIsListed(x, s);
    SliceCleared(x, s, 0, First(x), FirstDone(x));
    OneArray(s.store.arrays, FirstDone(x).Elems());
  }

  lemma FirstPublish(x: Trap, s: State)
    requires x.Ok() && PolledOnce(x, s)
    ensures SentOnce(x, AfterPublish(x.c, s, true))
  {
    FirstCleared(x, s);
    PathIsListed(x);
    var data := Assembled(x.c, s);
    var lead, ts := Contents(data.store.heap, data.snap.lead), Contents(data.store.heap, data.store.arrays[0]);
    assert Has(data.store.heap, FirstDone(x).owners[x.N()], FirstDone(x).objs[x.N()]);
    assert FrameShows(AfterPublish(x.c, s, true).sent, lead, ts, x.N(), x.Whole());
  }

  // ----- the second poll and its comparison -----

  lemma FirstStays(x: Trap, h: Heap, h': Heap)
    requires x.Shaped() && FirstLeft(x, h) && Besides(h, h', SecondOwners(x))
    ensures FirstLeft(x, h')
  {
    forall i | 0 <= i < x.N() ensures Has(h', Owner(TaskKind, 0, i), FirstDone(x).objs[i]) {
      assert Has(h, Owner(TaskKind, 0, i), FirstDone(x).objs[i]);
      assert Owner(TaskKind, 0, i) !in SecondOwners(x);
    }
  }

  lemma SecondKeeps(x: Trap, s: State)
    requires x.Shaped() && SentOnce(x, s)
    ensures var t := Placed(s, SecondList(x)); EarlyKept(x, t) && FirstLeft(x, t.store.heap)
  {
    PathIsListed(x);
    OlderKept(s, SecondList(x));
    forall i | 0 <= i <= x.N() ensures Has(Placed(s, SecondList(x)).store.heap, Owner(TaskKind, 0, i), FirstDone(x).objs[i]) {
      assert Has(s.store.heap, FirstDone(x).owners[i], FirstDone(x).objs[i]);
    }
  }

  /** What the second poll has fetched is in memory, and not listed yet. */
  ghost predicate SecondFetched(x: Trap, t: State)
    requires x.Shaped() && x.K() < x.N()
  {
    && Common(x, t) && t.haveTasks && t.arrays == 1 && SentWhole(x, t)
    && t.store.arrays == map[0 := FirstDone(x).Elems()] && FirstLeft(x, t.store.heap)
    && ElemsOf(SecondShown(x), t.shapes) == Second(x).Elems() && Holds(t.store.heap, Second(x))
    && |RawTasks(SecondShown(x), t.raws)| == x.N() + 1 && RawTasks(SecondShown(x), t.raws)[x.N()] == x.Erased()
  }

  lemma SecondFetch(x: Trap, s: State)
    requires x.Shaped() && SentOnce(x, s) && x.K() < x.N()
    ensures SecondFetched(x, Noted(s, SecondList(x)))
  {
    SecondPlaced(x, s);
    SecondInMemory(x, Noted(s, SecondList(x)));
    SentStays(x, s);
  }

  lemma SecondPlaced(x: Trap, s: State)
    requires x.Shaped() && SentOnce(x, s)
    ensures var t := Noted(s, SecondList(x));
            && (forall j | 0 <= j < x.N() :: Put(t, 1, j, SecondList(x)[j].fetched))
            && EarlyKept(x, t) && FirstLeft(x, t.store.heap)
  {
    AllPut(s, SecondList(x));
    SecondKeeps(x, s);
  }

  lemma SentStays(x: Trap, s: State)
    requires x.Shaped() && SentOnce(x, s)
    ensures var t := Noted(s, SecondList(x));
            Common(x, t) && t.arrays == 1 && SentWhole(x, t) && t.store.arrays == map[0 := FirstDone(x).Elems()]
  {
  }

  lemma SecondListing(x: Trap, t: State)
    requires x.Ok() && x.K() < x.N() && SecondFetched(x, t)
    ensures PolledTwice(x, Shown(x.c, t, SecondShown(x)))
  {
    ShownLeaves(x.c, t, SecondShown(x), Second(x));
    FirstStays(x, t.store.heap, Shown(x.c, t, SecondShown(x)).store.heap);
  }

  lemma SecondPoll(x: Trap, s: State)
    requires x.Ok() && SentOnce(x, s) && x.K() < x.N()
    ensures PolledTwice(x, AfterTasks(x.c, s, SecondList(x), 0, SecondShown(x)))
  {
    SecondFetch(x, s);
    SecondListing(x, Noted(s, SecondList(x)));
  }

  lemma SecondCleared(x: Trap, s: State)
    requires x.Ok() && PolledTwice(x, s)
    ensures var data := Assembled(x.c, s);
            && data.snap == Snapshot(LeadAfter(x.c.w, x.c.paths, s.lead), Some(1))
            && data.store.arrays == map[0 := FirstDone(x).Elems(), 1 := SecondDone(x).Elems()]
            && Holds(data.store.heap, SecondDone(x)) && FirstLeft(x, data.store.heap)
  {
    SecondRedacted(x);
    SliceCleared(x, s, 1, Second(x), SecondDone(x));
    FirstStays(x, s.store.heap, Assembled(x.c, s).store.heap);
  }

  /** The far task is shown erased, and was sent whole. */
  lemma SentOtherwise(x: Trap, sent: seq<Value>, lead: seq<Value>, ts: seq<Value>)
    requires x.Ok() && exists l, us :: FrameShows(sent, l, us, x.N(), x.Whole())
    requires |ts| == x.N() + 1 && ts[x.N()] == x.Erased()
    ensures |sent| == 1 && sent[0] != Root(lead, List(ts))
  {
    ErasedDiffers(x);
    var l, us :| FrameShows(sent, l, us, x.N(), x.Whole());
    if sent[0] == Root(lead, List(ts)) {
      RootInjective(l, List(us), lead, List(ts));
    }
  }

  lemma SecondComparison(x: Trap, s: State)
    requires x.Ok() && PolledTwice(x, s)
    ensures !ShowsSent(x.c, s.sent, s) && !Differs(s, Assembled(x.c, s))
  {
    SecondCleared(x, s);
    var data := Assembled(x.c, s);
    SlicesLookAlike(x, data.store.heap);
    assert data.store.arrays[0] == FirstDone(x).Elems() && data.store.arrays[1] == SecondDone(x).Elems();
    SentOtherwise(x, s.sent, Contents(data.store.heap, data.snap.lead), Contents(data.store.heap, data.store.arrays[0]));
  }

  /** Still there is something new to show. */
  lemma SecondIsNews(x: Trap, s: State)
    requires x.Ok() && PolledTwice(x, s)
    ensures s.sent != [] && s.sent[|s.sent| - 1] != RedactedNow(x.c, s)
  {
    var w, hs, ps, ts := x.c.w, x.c.Hidden(), x.c.paths, s.rawTasks;
    NothingCuts(x);
    RootClearAll(w, s.rawLead, Some(EachTask(w, HideSweeps(hs), ts)), ps);
    TasksInTwoStages(w, hs, ps, ts);
    ErasedIsLeft(x);
    SentOtherwise(x, s.sent, EachLead(w, PathSweeps(w, ps), s.rawLead), EachTask(w, x.c.Sweeps(), ts));
  }

  lemma ErasedIsLeft(x: Trap)
    requires x.Ok()
    ensures Effects(x.c.w, x.c.Sweeps(), SlotKind(x.N()), x.Erased()) == x.Erased()
  {
    ErasedSettles(x);
    forall sw | sw in x.c.Sweeps() ensures Effect(x.c.w, sw, SlotKind(x.N()), x.Erased()) == x.Erased() {
      if sw.task.Everywhere? {
        assert sw.task.rest in Wide(x.c.Sweeps());
      }
    }
    EffectsOfFixed(x.c.w, x.c.Sweeps(), SlotKind(x.N()), x.Erased());
  }

  // ----- the whole -----

  function ZeroGroup(ty: Type): Fetched {
    Fetched(ZeroCell(ty), map[])
  }

  function Round(c: Config): Tick
    requires c.Typed()
  {
    var n := |c.header|;
    StructuralTick(Some(ZeroGroup(c.w.lead[n + 1].ty)), Some(ZeroGroup(c.w.lead[n + 2].ty)), Some(ZeroGroup(c.w.lead[n].ty)), true)
  }

  lemma RunRound(x: Trap) returns (t: State)
    requires x.Ok()
    ensures Ticked(x.c, Fresh(), Round(x.c), t) && Started(x, t)
  {
    var r := Round(x.c);
    t := AfterGroups(x.c, Fresh(), r.nodes.value, r.services.value, r.networks.value);
    assert Refreshed(x.c, Fresh(), r, t) && t == AfterPublish(x.c, t, true);
  }

  lemma RoundIsTyped(c: Config)
    requires c.Typed()
    ensures TickTyped(c, Round(c))
  {
    forall i | 0 <= i < |c.w.lead| ensures Fits(c.w.lead[i].ty, ZeroCell(c.w.lead[i].ty)) {
      ZeroFits(c.w.lead[i].ty);
    }
  }

  lemma FirstTyped(x: Trap)
    requires x.Ok()
    ensures TasksTyped(x.c, FirstList(x))
  {
    ZeroFits(x.c.w.taskT);
    forall i | 0 <= i < |FirstList(x)| ensures FirstList(x)[i].fetched.Ok(x.c.w.taskT) {
      assert Blank(x.c.w).Ok(x.c.w.taskT) && Fetched(x.cell, x.m).Ok(x.c.w.taskT);
    }
  }

  lemma FirstTick(x: Trap) returns (tick: Tick)
    requires x.Ok()
    ensures tick == TaskTick(Some(FirstList(x)), 0, true) && TickTyped(x.c, tick) && ListsOnce(tick)
  {
    tick := TaskTick(Some(FirstList(x)), 0, true);
    FirstTyped(x);
    forall i, j | 0 <= i < j < |FirstList(x)| ensures FirstList(x)[i].task.id != FirstList(x)[j].task.id {
      FirstListsOnce(x, i, j);
    }
  }

  lemma SecondTick(x: Trap) returns (tick: Tick)
    requires x.Ok()
    ensures tick == TaskTick(Some(SecondList(x)), 0, true) && TickTyped(x.c, tick) && ListsOnce(tick)
  {
    tick := TaskTick(Some(SecondList(x)), 0, true);
    ZeroFits(x.c.w.taskT);
    ErasedSettles(x);
    forall i, j | 0 <= i < j < |SecondList(x)| ensures SecondList(x)[i].task.id != SecondList(x)[j].task.id {
      SecondListsOnce(x, i, j);
    }
  }

  lemma OneStopped(ts: seq<Task>, u: Task)
    requires AllRun(ts) && AllStopped([u])
    ensures PollShows(Polled(map[], ts + [u], 0), ts + [u], ts + [u])
  {
    assert [] + [u] == [u];
    PollCaches(map[], [], ts, [u]);
    PollLists(Polled(map[], ts + [u], 0), [], ts, [u]);
  }

  lemma FirstRefresh(x: Trap, s: State, tick: Tick)
    requires x.Ok() && Started(x, s) && tick == TaskTick(Some(FirstList(x)), 0, true)
    ensures Refreshed(x.c, s, tick, AfterTasks(x.c, s, FirstList(x), 0, FirstShown(x)))
  {
    FirstParts(x);
    OneStopped(FirstShown(x)[..x.N()], Early(x));
    PollRefreshes(x.c, s, tick, FirstShown(x));
  }

  lemma SecondRefresh(x: Trap, s: State, tick: Tick)
    requires x.Ok() && x.K() < x.N() && s.polls == 1 && HoldsTasks(s.cache, [Early(x)]) && tick == TaskTick(Some(SecondList(x)), 0, true)
    ensures Refreshed(x.c, s, tick, AfterTasks(x.c, s, SecondList(x), 0, SecondShown(x)))
  {
    var ts, us := SecondNumbered(x)[..x.K()], SecondNumbered(x)[x.K()..];
    SecondParts(x);
    assert SecondNumbered(x) == ts + us;
    PollCaches(s.cache, [Early(x)], ts, us);
    PollLists(Polled(s.cache, ts + us, 0), [Early(x)], ts, us);
    PollRefreshes(x.c, s, tick, SecondShown(x));
  }

  lemma RunFirst(x: Trap, s: State) returns (tick: Tick, t: State)
    requires x.Ok() && Started(x, s)
    ensures TickTyped(x.c, tick) && ListsOnce(tick) && Ticked(x.c, s, tick, t) && SentOnce(x, t)
  {
    tick := FirstTick(x);
    FirstRefresh(x, s, tick);
    FirstPoll(x, s);
    var mid := AfterTasks(x.c, s, FirstList(x), 0, FirstShown(x));
    FirstPublish(x, mid);
    t := AfterPublish(x.c, mid, true);
  }

  /** Nothing is sent, though there is something new. */
  lemma SecondPublish(x: Trap, s: State)
    requires x.Ok() && PolledTwice(x, s)
    ensures var t := AfterPublish(x.c, s, true);
            && t.sent == s.sent != [] && Loaded(t) && s.sent[|s.sent| - 1] != RedactedNow(x.c, t)
  {
    SecondComparison(x, s);
    SecondIsNews(x, s);
    assert RedactedNow(x.c, AfterPublish(x.c, s, true)) == RedactedNow(x.c, s);
  }

  lemma RunSecond(x: Trap, s: State) returns (tick: Tick, mid: State)
    requires x.Ok() && SentOnce(x, s)
    ensures TickTyped(x.c, tick) && ListsOnce(tick) && tick.marshals && Succeeds(tick) && Refreshed(x.c, s, tick, mid)
    ensures PolledTwice(x, mid) && mid.sent == s.sent
  {
    tick := SecondTick(x);
    PathIsListed(x);
    SecondRefresh(x, s, tick);
    mid := AfterTasks(x.c, s, SecondList(x), 0, SecondShown(x));
    SecondPoll(x, s);
    RefreshBrings(x.c, s, tick, mid);
  }

  lemma GoOn(c: Config, states: seq<State>, ticks: seq<Tick>, tick: Tick, t: State) returns (states': seq<State>, ticks': seq<Tick>)
    requires IsPolling(c, states, ticks) && TickTyped(c, tick) && Ticked(c, states[|ticks|], tick, t)
    ensures IsPolling(c, states', ticks') && |ticks'| == |ticks| + 1 && states'[|ticks'|] == t && ticks'[|ticks|] == tick
    ensures ticks <= ticks' && states <= states'
  {
    PollingGrows(c, states, ticks, tick, t);
    states', ticks' := states + [t], ticks + [tick];
  }

  lemma UpToRound(x: Trap) returns (states: seq<State>, ticks: seq<Tick>)
    requires x.Ok()
    ensures IsPolling(x.c, states, ticks) && |ticks| == 1 && Started(x, states[1]) && ListsOnce(ticks[0])
  {
    var t := RunRound(x);
    RoundIsTyped(x.c);
    assert IsPolling(x.c, [Fresh()], []);
    states, ticks := GoOn(x.c, [Fresh()], [], Round(x.c), t);
  }

  lemma UpToFirst(x: Trap) returns (states: seq<State>, ticks: seq<Tick>)
    requires x.Ok()
    ensures IsPolling(x.c, states, ticks) && |ticks| == 2 && SentOnce(x, states[2])
    ensures ListsOnce(ticks[0]) && ListsOnce(ticks[1])
  {
    states, ticks := UpToRound(x);
    var tick, t := RunFirst(x, states[1]);
    states, ticks := GoOn(x.c, states, ticks, tick, t);
  }

  lemma ThenCompares(c: Config, states: seq<State>, ticks: seq<Tick>, tick: Tick, m: State) returns (states': seq<State>, ticks': seq<Tick>)
    requires IsPolling(c, states, ticks) && TickTyped(c, tick) && Succeeds(tick)
    requires Refreshed(c, states[|ticks|], tick, m) && Loaded(m)
    ensures Compares(c, states', ticks', |ticks|, m) && |ticks'| == |ticks| + 1
    ensures ticks <= ticks' && ticks'[|ticks|] == tick && states <= states' && states'[|ticks'|] == AfterPublish(c, m, tick.marshals)
  {
    states', ticks' := GoOn(c, states, ticks, tick, AfterPublish(c, m, tick.marshals));
  }

  lemma UpToSecond(x: Trap) returns (states: seq<State>, ticks: seq<Tick>, m: State)
    requires x.Ok()
    ensures Compares(x.c, states, ticks, 2, m) && !ShowsSent(x.c, states[2].sent, m)
    ensures |ticks| == 3 && ticks[2].marshals && states[3].sent == states[2].sent && News(x.c, states[2], ticks[2], states[3])
    ensures ListsOnce(ticks[0]) && ListsOnce(ticks[1]) && ListsOnce(ticks[2])
  {
    states, ticks := UpToFirst(x);
    var tick;
    tick, m := RunSecond(x, states[2]);
    SecondComparison(x, m);
    SecondPublish(x, m);
    states, ticks := ThenCompares(x.c, states, ticks, tick, m);
  }

  /** A sensitive path that is not harmless sets a trap. */
  lemma HarmfulTraps(c: Config) returns (x: Trap)
    requires c.Typed() && !c.Ok()
    ensures x.Ok() && x.c == c
  {
    var i :| 0 <= i < |c.paths| && !HarmlessAmong(c.w, c.Sweeps(), [] + PathSweeps(c.w, c.paths[..i]), c.paths[i]);
    var before, aim := PathSweeps(c.w, c.paths[..i]), PathSweep(c.w, c.paths[i]).task;
    assert [] + before == before;
    var cell, m := Deep(c.w.taskT, Wide(c.Sweeps()), ClearedAt(c.w, before, aim.slot), aim.rest);
    x := Trap(c, i, cell, m);
  }

  /** With such a path: a run in which no poll lists an identifier twice, and whose third
      tick compares with a snapshot that no longer shows what was sent, finds no
      difference, and does not publish the change. */
  lemma HarmfulRun(c: Config) returns (states: seq<State>, ticks: seq<Tick>, m: State)
    requires c.Typed() && !c.Ok()
    ensures Compares(c, states, ticks, 2, m) && !ShowsSent(c, states[2].sent, m)
    ensures |ticks| == 3 && ticks[2].marshals && !Publishes(c, states, ticks, 2)
    ensures News(c, states[2], ticks[2], states[3]) && states[3].sent == states[2].sent
    ensures ListsOnce(ticks[0]) && ListsOnce(ticks[1]) && ListsOnce(ticks[2])
  {
    var x := HarmfulTraps(c);
    states, ticks, m := UpToSecond(x);
  }

  /** For every list of sensitive paths and every choice of what is hidden, the last
      snapshot shows what was sent at every comparison of every run if and only if each
      path is harmless among the rest. */
  lemma IntactExactlyIfHarmless(c: Config)
    requires c.Typed()
    ensures c.Ok() <==> AlwaysIntact(c)
  {
    if c.Ok() {
      forall states: seq<State>, ticks: seq<Tick>, j: nat, m: State | Compares(c, states, ticks, j, m)
        ensures ShowsSent(c, states[j].sent, m)
      {
        LastIsIntact(c, states, ticks, j, m);
      }
    } else {
      var states, ticks, m := HarmfulRun(c);
      assert Compares(c, states, ticks, 2, m);
    }
  }

  /** And every run publishes exactly when there is something new to show, if and only if
      they are. */
  lemma PublishedExactlyIfHarmless(c: Config)
    requires c.Typed()
    ensures c.Ok() <==> NeverMisses(c)
  {
    if c.Ok() {
      forall states: seq<State>, ticks: seq<Tick>, j: nat | IsPolling(c, states, ticks) && j < |ticks| && ticks[j].marshals
        ensures Publishes(c, states, ticks, j)
      {
        StepSends(c, states, ticks, j + 1);
      }
    } else {
      var states, ticks, m := HarmfulRun(c);
      assert IsPolling(c, states, ticks) && !Publishes(c, states, ticks, 2);
    }
  }

  /** So it is with any list of paths none of which names a task by its number, as the
      built-in ones do not. */
  lemma UnnumberedNeverMisses(c: Config)
    requires c.Typed() && forall p | p in c.paths :: |p| < 2 || p[1] == "*" || Atoi(p[1]).None?
    ensures NeverMisses(c) && AlwaysIntact(c)
  {
    forall i | 0 <= i < |c.paths| ensures HarmlessAmong(c.w, c.Sweeps(), [] + PathSweeps(c.w, c.paths[..i]), c.paths[i]) {
      assert c.paths[i] in c.paths;
    }
    PublishedExactlyIfHarmless(c);
    IntactExactlyIfHarmless(c);
  }
}
