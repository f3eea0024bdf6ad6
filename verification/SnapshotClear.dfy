/** ClearByPath applied to a snapshot in shared memory, what clearing a list of paths
    means component by component, and which paths leave other snapshots alone. */
module SnapshotClear {
  import opened Text
  import opened PathSyntax
  import opened Values
  import opened PathClear
  import opened Memory
  import opened Snapshots

  /** The path is the tasks field itself. */
  predicate CutsTasks(w: World, p: Path) {
    TasksHit(w, p) && |p| == 1
  }

  function PathSweeps(w: World, ps: seq<Path>): seq<Sweep> {
    seq(|ps|, i requires 0 <= i < |ps| => PathSweep(w, ps[i]))
  }

  function HideSweeps(hs: seq<Path>): seq<Sweep> {
    seq(|hs|, i requires 0 <= i < |hs| => HideSweep(hs[i]))
  }

  function EachLead(w: World, sws: seq<Sweep>, xs: seq<Value>): seq<Value> {
    seq(|xs|, i requires 0 <= i < |xs| => Effects(w, sws, LeadKind(i), xs[i]))
  }

  function EachTask(w: World, sws: seq<Sweep>, ts: seq<Value>): seq<Value> {
    seq(|ts|, j requires 0 <= j < |ts| => Effects(w, sws, SlotKind(j), ts[j]))
  }

  // ----- the root, component by component -----

  lemma RootClear(w: World, xs: seq<Value>, ts: Option<seq<Value>>, p: Path)
    requires w.Ok() && |xs| == |w.lead|
    ensures Clear(w.RootT(), Root(xs, TasksValue(ts)), p) ==
            Root(EachLead(w, [PathSweep(w, p)], xs),
                 TasksValue(if ts.None? || CutsTasks(w, p) then None else Some(EachTask(w, [PathSweep(w, p)], ts.value))))
  {
    var sw, n := PathSweep(w, p), |w.lead|;
    var lead := EachLead(w, [sw], xs);
    forall i | 0 <= i < n ensures lead[i] == Effect(w, sw, LeadKind(i), xs[i]) {
      EffectsOne(w, sw, LeadKind(i), xs[i]);
    }
    if p == [] {
      assert lead == xs;
      TasksClear(w, ts, p);
    } else {
      var cleared := ClearIn(w.RootT(), Root(xs, TasksValue(ts)), p);
      TasksClear(w, ts, p);
      forall i | 0 <= i < n ensures cleared.fields[i] == lead[i] {
        assert w.Fields()[i] == w.lead[i];
      }
      assert w.Fields()[n] == w.tasksField;
      assert cleared.fields == lead + [cleared.fields[n]];
    }
  }

  function TouchTasks(w: World, p: Path, t: Value): Value {
    if p == [] then t else Touch(TasksHit(w, p), w.tasksField.ty, t, p[1..])
  }

  lemma TasksClear(w: World, ts: Option<seq<Value>>, p: Path)
    requires w.Ok()
    ensures TouchTasks(w, p, TasksValue(ts)) ==
            TasksValue(if ts.None? || CutsTasks(w, p) then None else Some(EachTask(w, [PathSweep(w, p)], ts.value)))
  {
    var sw := PathSweep(w, p);
    if ts.Some? && !CutsTasks(w, p) {
      var each := EachTask(w, [sw], ts.value);
      forall j | 0 <= j < |ts.value| ensures each[j] == Effect(w, sw, SlotKind(j), ts.value[j]) {
        EffectsOne(w, sw, SlotKind(j), ts.value[j]);
      }
      if TasksHit(w, p) {
        ElementsClear(w, ts.value, p, each);
      } else {
        assert each == ts.value;
      }
    } else if ts.None? && TasksHit(w, p) {
      ClearNil(w.tasksField.ty, p[1..]);
    }
  }

  lemma ElementsClear(w: World, ts: seq<Value>, p: Path, each: seq<Value>)
    requires w.Ok() && TasksHit(w, p) && |p| >= 2 && |each| == |ts|
    requires forall j | 0 <= j < |ts| :: each[j] == Effect(w, PathSweep(w, p), SlotKind(j), ts[j])
    ensures Clear(SliceT(w.taskT), List(ts), p[1..]) == List(each)
  {
    var q := p[1..];
    assert q[0] == p[1] && q[1..] == p[2..];
    assert Clear(SliceT(w.taskT), List(ts), q) == ClearIn(SliceT(w.taskT), List(ts), q) == ClearElems(w.taskT, List(ts), q);
    forall j | 0 <= j < |ts| ensures ClearElems(w.taskT, List(ts), q).elems[j] == each[j] {
      assert IndexHit(q[0], j) <==> AimAt(w, PathSweep(w, p), SlotKind(j)).hit;
    }
    assert ClearElems(w.taskT, List(ts), q).elems == each;
  }

  function TasksAfter(w: World, ps: seq<Path>, ts: Option<seq<Value>>): Option<seq<Value>> {
    if ts.None? || exists p | p in ps :: CutsTasks(w, p) then None
    else Some(EachTask(w, PathSweeps(w, ps), ts.value))
  }

  /** Clearing a list of paths from a whole snapshot is clearing it from every
      leading field and every task. */
  lemma {:induction false} RootClearAll(w: World, xs: seq<Value>, ts: Option<seq<Value>>, ps: seq<Path>)
    requires w.Ok() && |xs| == |w.lead|
    ensures ClearAll(w.RootT(), Root(xs, TasksValue(ts)), ps) ==
            Root(EachLead(w, PathSweeps(w, ps), xs), TasksValue(TasksAfter(w, ps, ts)))
    decreases |ps|
  {
    var sws := PathSweeps(w, ps);
    if ps == [] {
      assert EachLead(w, sws, xs) == xs;
      assert ts.Some? ==> EachTask(w, sws, ts.value) == ts.value;
    } else {
      var p, rest := ps[0], ps[1..];
      RootClear(w, xs, ts, p);
      var xs' := EachLead(w, [PathSweep(w, p)], xs);
      var ts' := if ts.None? || CutsTasks(w, p) then None else Some(EachTask(w, [PathSweep(w, p)], ts.value));
      RootClearAll(w, xs', ts', rest);
      assert sws == [PathSweep(w, p)] + PathSweeps(w, rest);
      forall i | 0 <= i < |xs| ensures EachLead(w, PathSweeps(w, rest), xs')[i] == EachLead(w, sws, xs)[i] {
        EffectsAppend(w, [PathSweep(w, p)], PathSweeps(w, rest), LeadKind(i), xs[i]);
      }
      assert EachLead(w, PathSweeps(w, rest), xs') == EachLead(w, sws, xs);
      TasksAfterStep(w, p, rest, ts);
      assert [p] + rest == ps;
    }
  }

  lemma TasksAfterStep(w: World, p: Path, rest: seq<Path>, ts: Option<seq<Value>>)
    ensures TasksAfter(w, [p] + rest, ts) ==
            TasksAfter(w, rest, if ts.None? || CutsTasks(w, p) then None else Some(EachTask(w, [PathSweep(w, p)], ts.value)))
  {
    var ps := [p] + rest;
    assert p in ps && forall q | q in rest :: q in ps;
    if ts.Some? && !CutsTasks(w, p) && !exists q | q in ps :: CutsTasks(w, q) {
      assert PathSweeps(w, ps) == [PathSweep(w, p)] + PathSweeps(w, rest);
      forall j | 0 <= j < |ts.value|
        ensures EachTask(w, PathSweeps(w, ps), ts.value)[j] ==
                EachTask(w, PathSweeps(w, rest), EachTask(w, [PathSweep(w, p)], ts.value))[j]
      {
        EffectsAppend(w, [PathSweep(w, p)], PathSweeps(w, rest), SlotKind(j), ts.value[j]);
      }
      assert EachTask(w, PathSweeps(w, ps), ts.value) ==
             EachTask(w, PathSweeps(w, rest), EachTask(w, [PathSweep(w, p)], ts.value));
    }
  }

  lemma RootInjective(xs: seq<Value>, t: Value, ys: seq<Value>, u: Value)
    requires Root(xs, t) == Root(ys, u)
    ensures xs == ys && t == u
  {
    var a, b := xs + [t], ys + [u];
    assert a == b && |xs| == |ys|;
    assert xs == a[..|xs|] && ys == b[..|ys|];
    assert t == a[|xs|] && u == b[|ys|];
  }

  // ----- clearing paths from a snapshot, in place -----

  /** A snapshot and the memory it lives in. */
  datatype Shot = Shot(store: Store, snap: Snapshot) {
    function Shows(): Value { SnapContent(store, snap) }
    predicate Ok(w: World) { StoreOk(w, store) && SnapOk(w, store, snap) }
  }

  function ClearLead(w: World, p: Path, x: Shot): Shot {
    var sws, lead := [PathSweep(w, p)], x.snap.lead;
    Shot(x.store.(heap := SweepHeap(w, sws, true, x.store.heap, lead, |lead|)),
         x.snap.(lead := SweepElems(w, sws, true, lead)))
  }

  function ClearTasks(w: World, p: Path, x: Shot): Shot {
    if CutsTasks(w, p) then x.(snap := x.snap.(tasks := None))
    else if x.snap.tasks.None? || x.snap.tasks.value !in x.store.arrays then x
    else x.(store := SweepTasks(w, [PathSweep(w, p)], x.store, x.snap.tasks.value))
  }

  /** internal.ClearByPath on a snapshot. */
  function ClearShot(w: World, p: Path, x: Shot): Shot {
    ClearTasks(w, p, ClearLead(w, p, x))
  }

  function ClearPaths(w: World, ps: seq<Path>, x: Shot): Shot
    decreases |ps|
  {
    if ps == [] then x else ClearPaths(w, ps[1..], ClearShot(w, ps[0], x))
  }

  /** Values have changed mildly, place by place, and the sweeps `done` have nothing left to
      do there. */
  ghost predicate MildAll(w: World, all: seq<Sweep>, done: seq<Sweep>, lead: bool, xs: seq<Value>, ys: seq<Value>) {
    && |xs| == |ys|
    && forall i | 0 <= i < |xs| :: Mild(w, all, Seat(lead, i), xs[i], ys[i]) && FixedBy(w, done, Seat(lead, i), ys[i])
  }

  /** So has a snapshot, unless its tasks were cut. */
  ghost predicate Redacts(w: World, all: seq<Sweep>, done: seq<Sweep>, x: Shot, y: Shot) {
    && MildAll(w, all, done, true, Contents(x.store.heap, x.snap.lead), Contents(y.store.heap, y.snap.lead))
    && (y.snap.tasks.Some? ==>
          && y.snap.tasks == x.snap.tasks && TasksIn(x.store, x.snap.tasks).Some? && TasksIn(y.store, x.snap.tasks).Some?
          && MildAll(w, all, done, false, TasksIn(x.store, x.snap.tasks).value, TasksIn(y.store, x.snap.tasks).value))
  }

  lemma SweptIsMild(w: World, all: seq<Sweep>, sws: seq<Sweep>, lead: bool, h: Heap, es: seq<Elem>, h': Heap)
    requires Swept(w, all, sws, lead, h, es, h', |es|)
    ensures MildAll(w, all, sws, lead, Contents(h, es), Contents(h', SweepElems(w, sws, lead, es)))
  {
    forall i | 0 <= i < |es|
      ensures Mild(w, all, Seat(lead, i), Contents(h, es)[i], Contents(h', SweepElems(w, sws, lead, es))[i])
      ensures FixedBy(w, sws, Seat(lead, i), Contents(h', SweepElems(w, sws, lead, es))[i])
    {
      assert SweptOne(w, all, sws, Seat(lead, i), h, es[i], h', SweepElems(w, sws, lead, es)[i]);
    }
  }

  lemma MildAllTrans(w: World, all: seq<Sweep>, done: seq<Sweep>, more: seq<Sweep>, lead: bool, xs: seq<Value>, ys: seq<Value>, zs: seq<Value>)
    requires MildAll(w, all, done, lead, xs, ys) && MildAll(w, all, more, lead, ys, zs)
    ensures MildAll(w, all, done + more, lead, xs, zs)
  {
    forall i | 0 <= i < |xs| ensures Mild(w, all, Seat(lead, i), xs[i], zs[i]) && FixedBy(w, done + more, Seat(lead, i), zs[i]) {
      MildTrans(w, all, Seat(lead, i), xs[i], ys[i], zs[i]);
      MildKeepsFixed(w, all, done, Seat(lead, i), ys[i], zs[i]);
    }
  }

  lemma RedactsTrans(w: World, all: seq<Sweep>, done: seq<Sweep>, more: seq<Sweep>, x: Shot, y: Shot, z: Shot)
    requires Redacts(w, all, done, x, y) && Redacts(w, all, more, y, z)
    ensures Redacts(w, all, done + more, x, z)
  {
    MildAllTrans(w, all, done, more, true, Contents(x.store.heap, x.snap.lead), Contents(y.store.heap, y.snap.lead), Contents(z.store.heap, z.snap.lead));
    if z.snap.tasks.Some? {
      MildAllTrans(w, all, done, more, false, TasksIn(x.store, x.snap.tasks).value, TasksIn(y.store, x.snap.tasks).value, TasksIn(z.store, x.snap.tasks).value);
    }
  }

  lemma ClearLeadShows(w: World, all: seq<Sweep>, before: seq<Sweep>, p: Path, x: Shot)
    requires PathSweep(w, p) in all && HarmlessAmong(w, all, before, p) && x.Ok(w)
    ensures var y := ClearLead(w, p, x);
            && y.Ok(w) && Gentle(w, all, x.store, y.store)
            && Swept(w, all, [PathSweep(w, p)], true, x.store.heap, x.snap.lead, y.store.heap, |x.snap.lead|)
  {
    var sws, y, n := [PathSweep(w, p)], ClearLead(w, p, x), |x.snap.lead|;
    SweepShows(w, all, before, sws, true, x.store.heap, x.snap.lead, n);
    HeapIsGentle(w, all, x.store, y.store.heap);
    forall i | 0 <= i < n ensures ElemOk(w, y.store.heap, y.snap.lead[i]) && InSeat(Seat(true, i), y.snap.lead[i]) {
      assert SweptOne(w, all, sws, Seat(true, i), x.store.heap, x.snap.lead[i], y.store.heap, SweepElems(w, sws, true, x.snap.lead)[i]);
    }
  }

  lemma GentleKeepsLeadOk(w: World, all: seq<Sweep>, h: Heap, h': Heap, lead: seq<Elem>)
    requires GentleHeap(w, all, h, h') && ElemsOk(w, true, h, lead)
    ensures ElemsOk(w, true, h', lead)
  {
    assert forall i | 0 <= i < |lead| :: ElemOk(w, h, lead[i]);
  }

  /** The snapshot's tasks have been cleared by the sweeps. */
  ghost predicate TasksCut(w: World, before: seq<Sweep>, x: Shot) {
    x.snap.tasks.Some? && x.snap.tasks.value in x.store.arrays ==> AllCut(w, before, false, x.store.arrays[x.snap.tasks.value])
  }

  lemma ClearTasksShows(w: World, all: seq<Sweep>, before: seq<Sweep>, p: Path, x: Shot)
    requires PathSweep(w, p) in all && HarmlessAmong(w, all, before, p) && x.Ok(w) && TasksCut(w, before, x)
    ensures var y := ClearTasks(w, p, x);
            && TasksCut(w, before + [PathSweep(w, p)], y)
            && y.Ok(w) && Gentle(w, all, x.store, y.store) && y.snap == x.snap.(tasks := if CutsTasks(w, p) then None else x.snap.tasks)
            && (y.snap.tasks.Some? ==>
                  MildAll(w, all, [PathSweep(w, p)], false, TasksIn(x.store, x.snap.tasks).value, TasksIn(y.store, x.snap.tasks).value))
  {
    var sws, y := [PathSweep(w, p)], ClearTasks(w, p, x);
    if CutsTasks(w, p) || x.snap.tasks.None? {
      GentleRefl(w, all, x.store);
    } else {
      var a := x.snap.tasks.value;
      SweepTasksShows(w, all, before, sws, x.store, a);
      SweepCuts(w, before, PathSweep(w, p), x.store.heap, x.store.arrays[a]);
      GentleKeepsLeadOk(w, all, x.store.heap, y.store.heap, x.snap.lead);
      SweptIsMild(w, all, sws, false, x.store.heap, x.store.arrays[a], y.store.heap);
    }
  }

  /** Tasks at their places change mildly with the store. */
  lemma TasksChangeMildly(w: World, all: seq<Sweep>, st: Store, st': Store, tasks: Option<nat>)
    requires Gentle(w, all, st, st') && tasks.Some? && tasks.value in st.arrays
    ensures MildAll(w, all, [], false, TasksIn(st, tasks).value, TasksIn(st', tasks).value)
  {
    var a := tasks.value;
    assert GentleArray(w, all, st.heap, st.arrays[a], st'.heap, st'.arrays[a]);
    forall j | 0 <= j < |st.arrays[a]| ensures Mild(w, all, Seat(false, j), TasksIn(st, tasks).value[j], TasksIn(st', tasks).value[j]) {
      assert Mild(w, all, SlotKind(j), Content(st.heap, st.arrays[a][j]), Content(st'.heap, st'.arrays[a][j]));
    }
  }

  /** One path is done with, and all that shares the snapshot's memory changes mildly. */
  lemma ClearShotShows(w: World, all: seq<Sweep>, before: seq<Sweep>, p: Path, x: Shot)
    requires PathSweep(w, p) in all && HarmlessAmong(w, all, before, p) && x.Ok(w) && TasksCut(w, before, x)
    ensures var y := ClearShot(w, p, x);
            && y.Ok(w) && TasksCut(w, before + [PathSweep(w, p)], y) && Gentle(w, all, x.store, y.store) && Redacts(w, all, [PathSweep(w, p)], x, y)
            && y.snap.tasks == if CutsTasks(w, p) then None else x.snap.tasks
  {
    var sws, mid, y := [PathSweep(w, p)], ClearLead(w, p, x), ClearShot(w, p, x);
    ClearLeadShows(w, all, before, p, x);
    ClearTasksShows(w, all, before, p, mid);
    GentleTrans(w, all, x.store, mid.store, y.store);
    SweptStays(w, all, sws, true, x.store.heap, x.snap.lead, mid.store.heap, y.store.heap, |x.snap.lead|);
    SweptIsMild(w, all, sws, true, x.store.heap, x.snap.lead, y.store.heap);
    if y.snap.tasks.Some? {
      var t := x.snap.tasks;
      TasksChangeMildly(w, all, x.store, mid.store, t);
      MildAllTrans(w, all, [], sws, false, TasksIn(x.store, t).value, TasksIn(mid.store, t).value, TasksIn(y.store, t).value);
      assert [] + sws == sws;
    }
  }

  /** So are the paths of a list. */
  ghost predicate ListDone(w: World, all: seq<Sweep>, ps: seq<Path>, x: Shot, y: Shot) {
    && y.Ok(w) && Gentle(w, all, x.store, y.store) && Redacts(w, all, PathSweeps(w, ps), x, y)
    && y.snap.tasks == if exists p | p in ps :: CutsTasks(w, p) then None else x.snap.tasks
  }

  /** Each path of a list is harmless after those before it. */
  ghost predicate AllHarmless(w: World, all: seq<Sweep>, before: seq<Sweep>, ps: seq<Path>) {
    forall i | 0 <= i < |ps| :: HarmlessAmong(w, all, before + PathSweeps(w, ps[..i]), ps[i])
  }

  lemma RestHarmless(w: World, all: seq<Sweep>, before: seq<Sweep>, ps: seq<Path>)
    requires ps != [] && AllHarmless(w, all, before, ps)
    ensures HarmlessAmong(w, all, before, ps[0]) && AllHarmless(w, all, before + [PathSweep(w, ps[0])], ps[1..])
  {
    var first := [PathSweep(w, ps[0])];
    assert before + PathSweeps(w, ps[..0]) == before;
    forall i | 0 <= i < |ps[1..]| ensures HarmlessAmong(w, all, before + first + PathSweeps(w, ps[1..][..i]), ps[1..][i]) {
      assert HarmlessAmong(w, all, before + PathSweeps(w, ps[..i + 1]), ps[i + 1]);
      assert before + first + PathSweeps(w, ps[1..][..i]) == before + PathSweeps(w, ps[..i + 1]);
    }
  }

  lemma {:induction false} ClearPathsShows(w: World, all: seq<Sweep>, before: seq<Sweep>, ps: seq<Path>, x: Shot)
    requires x.Ok(w) && TasksCut(w, before, x) && AllHarmless(w, all, before, ps) && forall p | p in ps :: PathSweep(w, p) in all
    ensures ListDone(w, all, ps, x, ClearPaths(w, ps, x))
    decreases |ps|
  {
    if ps == [] {
      NothingCleared(w, all, x);
    } else {
      RestHarmless(w, all, before, ps);
      ClearShotShows(w, all, before, ps[0], x);
      ClearPathsShows(w, all, before + [PathSweep(w, ps[0])], ps[1..], ClearShot(w, ps[0], x));
      FirstThenRest(w, all, ps, x, ClearShot(w, ps[0], x), ClearPaths(w, ps, x));
    }
  }

  lemma FirstThenRest(w: World, all: seq<Sweep>, ps: seq<Path>, x: Shot, mid: Shot, y: Shot)
    requires ps != [] && Gentle(w, all, x.store, mid.store) && Redacts(w, all, [PathSweep(w, ps[0])], x, mid)
    requires mid.snap.tasks == (if CutsTasks(w, ps[0]) then None else x.snap.tasks) && ListDone(w, all, ps[1..], mid, y)
    ensures ListDone(w, all, ps, x, y)
  {
    GentleTrans(w, all, x.store, mid.store, y.store);
    RedactsTrans(w, all, [PathSweep(w, ps[0])], PathSweeps(w, ps[1..]), x, mid, y);
    assert [PathSweep(w, ps[0])] + PathSweeps(w, ps[1..]) == PathSweeps(w, ps);
    CutsInList(w, ps);
  }

  lemma NothingCleared(w: World, all: seq<Sweep>, x: Shot)
    requires x.Ok(w)
    ensures Gentle(w, all, x.store, x.store) && Redacts(w, all, [], x, x)
  {
    GentleRefl(w, all, x.store);
    if x.snap.tasks.Some? {
      TasksChangeMildly(w, all, x.store, x.store, x.snap.tasks);
    }
  }

  lemma CutsInList(w: World, ps: seq<Path>)
    requires ps != []
    ensures (exists p | p in ps :: CutsTasks(w, p)) <==> CutsTasks(w, ps[0]) || exists p | p in ps[1..] :: CutsTasks(w, p)
  {
    assert ps[0] in ps && forall p | p in ps :: p == ps[0] || p in ps[1..];
  }

  // ----- snapshots with nothing left to clear -----

  /** The sweeps would leave the snapshot alone. */
  predicate Settled(w: World, sws: seq<Sweep>, st: Store, s: Snapshot) {
    && SnapOk(w, st, s)
    && EachLead(w, sws, Contents(st.heap, s.lead)) == Contents(st.heap, s.lead)
    && (s.tasks.Some? ==> EachTask(w, sws, TasksIn(st, s.tasks).value) == TasksIn(st, s.tasks).value)
  }

  /** So a mild change does not change it. */
  lemma SettledStays(w: World, sws: seq<Sweep>, st: Store, st': Store, s: Snapshot)
    requires Gentle(w, sws, st, st') && Settled(w, sws, st, s)
    ensures Settled(w, sws, st', s) && SnapContent(st', s) == SnapContent(st, s)
  {
    forall i | 0 <= i < |s.lead| ensures ElemOk(w, st'.heap, s.lead[i]) && Content(st'.heap, s.lead[i]) == Content(st.heap, s.lead[i]) {
      assert EachLead(w, sws, Contents(st.heap, s.lead))[i] == Content(st.heap, s.lead[i]);
      assert ElemOk(w, st.heap, s.lead[i]) && InSeat(LeadKind(i), s.lead[i]);
      MildInSeat(w, sws, st.heap, st'.heap, LeadKind(i), s.lead[i]);
    }
    assert Contents(st'.heap, s.lead) == Contents(st.heap, s.lead);
    if s.tasks.Some? {
      var a := s.tasks.value;
      assert GentleArray(w, sws, st.heap, st.arrays[a], st'.heap, st'.arrays[a]);
      forall j | 0 <= j < |st.arrays[a]| ensures Content(st'.heap, st'.arrays[a][j]) == Content(st.heap, st.arrays[a][j]) {
        assert EachTask(w, sws, TasksIn(st, s.tasks).value)[j] == Content(st.heap, st.arrays[a][j]);
      }
      assert Contents(st'.heap, st'.arrays[a]) == Contents(st.heap, st.arrays[a]);
    }
  }

  // ----- the code -----

  /** The leading fields, one by one. */
  method ClearLeadInPlace(w: World, p: Path, x: Shot) returns (y: Shot)
    ensures y == ClearLead(w, p, x)
  {
    var h, lead := x.store.heap, x.snap.lead;
    ghost var swept := SweepElems(w, [PathSweep(w, p)], true, lead);
    for i := 0 to |lead|
      invariant |lead| == |x.snap.lead| && h == SweepHeap(w, [PathSweep(w, p)], true, x.store.heap, x.snap.lead, i)
      invariant forall k | 0 <= k < |lead| :: lead[k] == if k < i then swept[k] else x.snap.lead[k]
    {
      var e;
      h, e := TouchBy(w, [PathSweep(w, p)], LeadKind(i), h, lead[i]);
      lead := lead[i := e];
    }
    assert lead == swept;
    y := Shot(x.store.(heap := h), x.snap.(lead := lead));
  }

  /** One round of the loop over the sensitive paths. */
  method ClearSnapshot(w: World, p: Path, x: Shot) returns (y: Shot)
    ensures y == ClearShot(w, p, x)
  {
    y := ClearLeadInPlace(w, p, x);
    if CutsTasks(w, p) {
      y := y.(snap := y.snap.(tasks := None));
    } else if y.snap.tasks.Some? && y.snap.tasks.value in y.store.arrays {
      var st := SweepArray(w, [PathSweep(w, p)], y.store, y.snap.tasks.value);
      y := y.(store := st);
    }
  }
}
