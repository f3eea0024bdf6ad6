/** Which paths can be cleared from a snapshot in place without changing another
    snapshot that shares its memory and has been cleared itself: exactly those that are
    harmless, which the type of a task and the path tell. */
module Bystanders {
  import opened Text
  import opened PathSyntax
  import opened Values
  import opened PathClear
  import opened Memory
  import opened Shallow
  import opened Snapshots
  import opened SnapshotClear
  import opened Slices

  /** Clearing `p` from `s` does not change what `other` shows, if that was cleared. */
  ghost predicate Spares(w: World, p: Path, st: Store, s: Snapshot, other: Snapshot) {
    && StoreOk(w, st) && SnapOk(w, st, s) && SnapOk(w, st, other)
    && Clear(w.RootT(), SnapContent(st, other), p) == SnapContent(st, other)
    ==> SnapContent(ClearShot(w, p, Shot(st, s)).store, other) == SnapContent(st, other)
  }

  lemma HarmlessSpares(w: World, p: Path, st: Store, s: Snapshot, other: Snapshot)
    requires w.Ok() && Harmless(w, p)
    ensures Spares(w, p, st, s, other)
  {
    if StoreOk(w, st) && SnapOk(w, st, s) && SnapOk(w, st, other) && Clear(w.RootT(), SnapContent(st, other), p) == SnapContent(st, other) {
      var sws, ts := [PathSweep(w, p)], TasksIn(st, other.tasks);
      ClearShotShows(w, sws, [], p, Shot(st, s));
      RootClear(w, Contents(st.heap, other.lead), ts, p);
      RootInjective(Contents(st.heap, other.lead), TasksValue(ts), EachLead(w, sws, Contents(st.heap, other.lead)),
                    TasksValue(if ts.None? || CutsTasks(w, p) then None else Some(EachTask(w, sws, ts.value))));
      SettledStays(w, sws, st, ClearShot(w, p, Shot(st, s)).store, other);
    }
  }

  // ----- a path that names one place -----

  /** Sweeping one place touches the task there and nothing else. */
  lemma {:induction false} OnlySlot(w: World, sw: Sweep, h: Heap, es: seq<Elem>, n: nat)
    requires sw.task.Only? && n <= |es|
    ensures SweepHeap(w, [sw], false, h, es, n) ==
            if n <= sw.task.slot then h else TouchHeap(w, sw, SlotKind(sw.task.slot), h, es[sw.task.slot])
  {
    if n > 0 {
      OnlySlot(w, sw, h, es, n - 1);
      AfterOne(w, sw, SlotKind(n - 1), SweepHeap(w, [sw], false, h, es, n - 1), es[n - 1]);
    }
  }

  lemma OnlyElem(w: World, sw: Sweep, es: seq<Elem>)
    requires sw.task.Only? && sw.task.slot < |es|
    ensures SweepElems(w, [sw], false, es) == es[sw.task.slot := TouchElem(w, sw, SlotKind(sw.task.slot), es[sw.task.slot])]
  {
    forall i | 0 <= i < |es|
      ensures SweepElems(w, [sw], false, es)[i] == if i == sw.task.slot then TouchElem(w, sw, SlotKind(i), es[i]) else es[i]
    {
      AfterOne(w, sw, SlotKind(i), map[], es[i]);
    }
  }

  /** What clearing such a path leaves: of all tasks, only the one at the place is
      changed, and its objects as `ClearObjects` says. */
  lemma ClearOnly(w: World, p: Path, x: Shot, a: nat)
    requires PathSweep(w, p).task.Only? && LeadOnly(x.snap.lead) && x.snap.tasks == Some(a) && a in x.store.arrays
    requires var k, es := PathSweep(w, p).task.slot, x.store.arrays[a];
             k < |es| && es[k].owner.kind.TaskKind? && es[k].owner in x.store.heap
    ensures var sw, k, es, h, y := PathSweep(w, p), PathSweep(w, p).task.slot, x.store.arrays[a], x.store.heap, ClearShot(w, p, x);
            && y.snap == Snapshot(SweepElems(w, [sw], true, x.snap.lead), Some(a))
            && y.store.arrays == x.store.arrays[a := es[k := TouchElem(w, sw, SlotKind(k), es[k])]]
            && es[k].owner in y.store.heap
            && y.store.heap[es[k].owner] == ClearObjects(w.taskT, es[k].cell, sw.task.rest, h[es[k].owner])
            && forall o | o in h && o.kind.TaskKind? && o != es[k].owner :: o in y.store.heap && y.store.heap[o] == h[o]
  {
    var sw, es := PathSweep(w, p), x.store.arrays[a];
    LeadKeepsTasks(w, sw, x.store.heap, x.snap.lead, |x.snap.lead|);
    OnlySlot(w, sw, SweepHeap(w, [sw], true, x.store.heap, x.snap.lead, |x.snap.lead|), es, |es|);
    OnlyElem(w, sw, es);
  }

  // ----- a path that is not harmless -----

  lemma ZeroUntouched(w: World, sw: Sweep, k: Kind)
    ensures Effects(w, [sw], k, Zero(TypeOf(w, k))) == Zero(TypeOf(w, k))
  {
    var aim := AimAt(w, sw, k);
    EffectsOne(w, sw, k, Zero(TypeOf(w, k)));
    if aim.hit && aim.rest != [] {
      ZeroStays(TypeOf(w, k), aim.rest);
    }
  }

  const BLANK := Owner(TaskKind, 0, 0)
  const MOVED := Owner(TaskKind, 1, 0)

  function BlankLead(w: World): seq<Elem> {
    seq(|w.lead|, i requires 0 <= i < |w.lead| => Elem(Owner(LeadKind(i), 0, 0), ZeroCell(w.lead[i].ty)))
  }

  function BlankTask(w: World): Elem {
    Elem(BLANK, ZeroCell(w.taskT))
  }

  /** `n` blank tasks and then the one in question. */
  function Behind(w: World, n: nat, c: Cell): seq<Elem> {
    seq(n, _ => BlankTask(w)) + [Elem(MOVED, c)]
  }

  /** Two slices share a task: the first has it at place `k`, the second one further. */
  function Sharing(w: World, k: nat, c: Cell, m: Objects): Store {
    Store((map i | 0 <= i < |w.lead| :: Owner(LeadKind(i), 0, 0) := map[]) + map[BLANK := map[], MOVED := m],
          map[0 := Behind(w, k, c), 1 := Behind(w, k + 1, c)])
  }

  lemma SharingOk(w: World, k: nat, c: Cell, m: Objects, a: nat)
    requires Fits(w.taskT, c) && Typed(w.taskT, m) && a < 2
    ensures StoreOk(w, Sharing(w, k, c, m)) && SnapOk(w, Sharing(w, k, c, m), Snapshot(BlankLead(w), Some(a)))
  {
    var h := Sharing(w, k, c, m).heap;
    forall o | o in h ensures Typed(TypeOf(w, o.kind), h[o]) {
      assert o == MOVED || h[o] == map[];
    }
    BehindOk(w, h, k, c);
    BehindOk(w, h, k + 1, c);
    forall i | 0 <= i < |w.lead| ensures ElemOk(w, h, BlankLead(w)[i]) {
      ZeroFits(w.lead[i].ty);
    }
  }

  lemma BehindOk(w: World, h: Heap, n: nat, c: Cell)
    requires BLANK in h && MOVED in h && Fits(w.taskT, c)
    ensures ElemsOk(w, false, h, Behind(w, n, c))
  {
    ZeroFits(w.taskT);
    assert ElemOk(w, h, BlankTask(w)) && ElemOk(w, h, Elem(MOVED, c));
  }

  lemma BlankLeadShows(w: World, k: nat, c: Cell, m: Objects, p: Path)
    ensures var shown := Contents(Sharing(w, k, c, m).heap, BlankLead(w));
            EachLead(w, [PathSweep(w, p)], shown) == shown
  {
    var shown := Contents(Sharing(w, k, c, m).heap, BlankLead(w));
    forall i | 0 <= i < |shown| ensures EachLead(w, [PathSweep(w, p)], shown)[i] == shown[i] {
      LoadZero(w.lead[i].ty, [], map[]);
      ZeroUntouched(w, PathSweep(w, p), LeadKind(i));
    }
  }

  /** The second slice is cleared: its place `k` is blank. */
  lemma SecondIsCleared(w: World, p: Path, k: nat, c: Cell, m: Objects)
    requires w.Ok() && PathSweep(w, p).task.Only? && PathSweep(w, p).task.slot == k
    ensures var v := SnapContent(Sharing(w, k, c, m), Snapshot(BlankLead(w), Some(1)));
            Clear(w.RootT(), v, p) == v
  {
    var sw, st := PathSweep(w, p), Sharing(w, k, c, m);
    var ts := Contents(st.heap, st.arrays[1]);
    BlankLeadShows(w, k, c, m, p);
    LoadZero(w.taskT, [], map[]);
    forall j | 0 <= j < |ts| ensures EachTask(w, [sw], ts)[j] == ts[j] {
      if j <= k {
        assert ts[j] == Content(st.heap, BlankTask(w));
        ZeroUntouched(w, sw, SlotKind(j));
      } else {
        EffectsOne(w, sw, SlotKind(j), ts[j]);
      }
    }
    assert EachTask(w, [sw], ts) == ts;
    RootClear(w, Contents(st.heap, BlankLead(w)), Some(ts), p);
  }

  /** Clearing the first slice changes the objects of the shared task. */
  lemma FirstChangesObjects(w: World, p: Path, k: nat, c: Cell, m: Objects)
    requires PathSweep(w, p).task.Only? && PathSweep(w, p).task.slot == k
    ensures var st' := ClearShot(w, p, Shot(Sharing(w, k, c, m), Snapshot(BlankLead(w), Some(0)))).store;
            && MOVED in st'.heap && st'.heap[MOVED] == ClearObjects(w.taskT, c, PathSweep(w, p).task.rest, m)
            && 1 in st'.arrays && st'.arrays[1] == Behind(w, k + 1, c)
  {
    ClearOnly(w, p, Shot(Sharing(w, k, c, m), Snapshot(BlankLead(w), Some(0))), 0);
  }

  lemma HarmfulDisturbs(w: World, p: Path) returns (st: Store, s: Snapshot, other: Snapshot)
    requires w.Ok() && !Harmless(w, p)
    ensures !Spares(w, p, st, s, other)
  {
    var aim := PathSweep(w, p).task;
    var k := aim.slot;
    var c, m := Deep(w.taskT, Wide([PathSweep(w, p)]), ClearedAt(w, [], k), aim.rest);
    st, s, other := Sharing(w, k, c, m), Snapshot(BlankLead(w), Some(0)), Snapshot(BlankLead(w), Some(1));
    SharingOk(w, k, c, m, 0);
    SharingOk(w, k, c, m, 1);
    SecondIsCleared(w, p, k, c, m);
    FirstChangesObjects(w, p, k, c, m);
    var st' := ClearShot(w, p, Shot(st, s)).store;
    var xs, ys := Contents(st.heap, Behind(w, k + 1, c)), Contents(st'.heap, Behind(w, k + 1, c));
    assert xs[k + 1] != ys[k + 1];
    if SnapContent(st', other) == SnapContent(st, other) {
      RootInjective(Contents(st'.heap, other.lead), List(ys), Contents(st.heap, other.lead), List(xs));
    }
  }

  /** The condition is exact: clearing a path from any snapshot leaves every other
      snapshot that was cleared of it unchanged if and only if the path is harmless. */
  lemma HarmlessExactly(w: World, p: Path)
    requires w.Ok()
    ensures Harmless(w, p) <==> forall st, s, other :: Spares(w, p, st, s, other)
  {
    if Harmless(w, p) {
      forall st, s, other ensures Spares(w, p, st, s, other) {
        HarmlessSpares(w, p, st, s, other);
      }
    } else {
      var st, s, other := HarmfulDisturbs(w, p);
    }
  }
}
