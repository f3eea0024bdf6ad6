/** What makes a sensitive path do harm among others: a task whose value all the paths
    that go into every task leave alone, but not this path. The slices in which it is
    shown at two places, and what redacting them in place leaves. */
module Traps {
  import opened PathSyntax
  import opened Values
  import opened PathClear
  import opened Memory
  import opened Shallow
  import opened Snapshots
  import opened SnapshotClear
  import opened Slices
  import opened Inspector

  /** A place beyond all that sweeps name. */
  function Far(sws: seq<Sweep>): (n: nat)
    ensures forall sw | sw in sws && sw.task.Only? :: sw.task.slot < n
  {
    if sws == [] then 0
    else
      var n := Far(sws[1..]);
      if sws[0].task.Only? && sws[0].task.slot >= n then sws[0].task.slot + 1 else n
  }

  /** A configuration whose path number `at` names place `K()` and clears something behind
      a reference of the task with by-value part `cell` and objects `m`. Nothing that is
      cleared from every task does so, and no path before it removes the reference. */
  datatype Trap = Trap(c: Config, at: nat, cell: Cell, m: Objects) {
    predicate Shaped() { at < |c.paths| && PathSweep(c.w, c.paths[at]).task.Only? }
    function K(): nat requires Shaped() { PathSweep(c.w, c.paths[at]).task.slot }
    function Rest(): Path requires Shaped() { PathSweep(c.w, c.paths[at]).task.rest }
    function Before(): seq<Sweep> requires Shaped() { PathSweeps(c.w, c.paths[..at]) }
    function N(): nat { Far(c.Sweeps()) }
    function Whole(): Value { Load(cell, [], m) }

    // What redaction at place `K()` leaves.
    function Bare(): Cell requires Shaped() { CellAfter(c.w, c.Sweeps(), SlotKind(K()), cell) }
    function After(): Objects requires Shaped() { ObjsAfter(c.w, c.Sweeps(), SlotKind(K()), cell, m) }
    function Erased(): Value requires Shaped() { Load(cell, [], After()) }

    ghost predicate Ok() {
      && Shaped() && c.Typed() && Settles(m) && Cut(c.w.taskT, cell, ClearedAt(c.w, Before(), K()))
      && Load(cell, [], ClearObjects(c.w.taskT, cell, Rest(), m)) != Whole()
    }

    /** With these objects, the value is left alone by what goes into every task. */
    ghost predicate Settles(objects: Objects) {
      && Fits(c.w.taskT, cell) && Typed(c.w.taskT, objects) && Tight(cell, [], objects)
      && [] !in Wide(c.Sweeps()) && Fixed(c.w.taskT, Load(cell, [], objects), Wide(c.Sweeps()))
    }
  }

  lemma PathIsListed(x: Trap)
    requires x.Shaped()
    ensures PathSweep(x.c.w, x.c.paths[x.at]) in x.c.Sweeps() && x.K() < x.N()
  {
    PathsAreListed(x.c);
  }

  lemma NothingCuts(x: Trap)
    requires x.Ok()
    ensures forall p | p in x.c.paths :: !CutsTasks(x.c.w, p)
  {
    PathsAreListed(x.c);
  }

  // ----- the value before and after -----

  lemma StillIfWide(x: Trap, objects: Objects, sw: Sweep)
    requires x.Settles(objects) && sw in x.c.Sweeps() && sw.task.Everywhere?
    ensures Still(x.c.w.taskT, x.cell, objects, sw.task.rest)
  {
    assert sw.task.rest in Wide(x.c.Sweeps());
    StillIfFixed(x.c.w.taskT, x.cell, objects, sw.task.rest);
  }

  /** Far out, the value stays. */
  lemma StillFar(x: Trap, objects: Objects)
    requires x.Settles(objects)
    ensures CellAfter(x.c.w, x.c.Sweeps(), SlotKind(x.N()), x.cell) == x.cell
    ensures ObjsAfter(x.c.w, x.c.Sweeps(), SlotKind(x.N()), x.cell, objects) == objects
  {
    forall sw | sw in x.c.Sweeps() && AimAt(x.c.w, sw, SlotKind(x.N())).hit
      ensures Still(x.c.w.taskT, x.cell, objects, AimAt(x.c.w, sw, SlotKind(x.N())).rest)
    {
      StillIfWide(x, objects, sw);
    }
    StillAfter(x.c.w, x.c.Sweeps(), SlotKind(x.N()), x.cell, objects);
  }

  lemma StillBlank(w: World, sws: seq<Sweep>, j: nat)
    ensures CellAfter(w, sws, SlotKind(j), ZeroCell(w.taskT)) == ZeroCell(w.taskT)
    ensures ObjsAfter(w, sws, SlotKind(j), ZeroCell(w.taskT), map[]) == map[]
  {
    forall sw | sw in sws && AimAt(w, sw, SlotKind(j)).hit
      ensures Still(w.taskT, ZeroCell(w.taskT), map[], AimAt(w, sw, SlotKind(j)).rest)
    {
      StillIfZero(w.taskT, AimAt(w, sw, SlotKind(j)).rest);
    }
    StillAfter(w, sws, SlotKind(j), ZeroCell(w.taskT), map[]);
  }

  lemma HiddenIsWide(c: Config, sw: Sweep)
    requires sw in HideSweeps(c.Hidden())
    ensures sw in c.Sweeps() && sw.task.Everywhere?
  {
  }

  /** The hidden paths do nothing at any place. */
  lemma StillHidden(x: Trap, j: nat)
    requires x.Ok()
    ensures CellAfter(x.c.w, HideSweeps(x.c.Hidden()), SlotKind(j), x.cell) == x.cell
    ensures ObjsAfter(x.c.w, HideSweeps(x.c.Hidden()), SlotKind(j), x.cell, x.m) == x.m
  {
    var hs := HideSweeps(x.c.Hidden());
    forall sw | sw in hs && AimAt(x.c.w, sw, SlotKind(j)).hit ensures Still(x.c.w.taskT, x.cell, x.m, AimAt(x.c.w, sw, SlotKind(j)).rest) {
      HiddenIsWide(x.c, sw);
      StillIfWide(x, x.m, sw);
    }
    StillAfter(x.c.w, hs, SlotKind(j), x.cell, x.m);
  }

  lemma ErasedSettles(x: Trap)
    requires x.Ok()
    ensures x.Settles(x.After())
  {
    ObjectsKept(x.c.w, x.c.Sweeps(), SlotKind(x.K()), x.cell, x.m);
    TightKept(x.cell, [], x.m, x.After());
    FixedAfter(x.c.w, x.c.Sweeps(), SlotKind(x.K()), x.cell, x.m, x.cell, Wide(x.c.Sweeps()));
  }

  /** Where the path changes an object. */
  lemma ChangedObject(x: Trap) returns (q: Position)
    requires x.Ok()
    ensures q in x.m && HeldAt(x.cell, q) && Reaches(x.c.w.taskT, x.cell, x.Rest(), q).Some?
    ensures var errand := Reaches(x.c.w.taskT, x.cell, x.Rest(), q).value; Clear(errand.ty, x.m[q], errand.rest) != x.m[q]
  {
    var m' := ClearObjects(x.c.w.taskT, x.cell, x.Rest(), x.m);
    assert m' != x.m;
    q :| q in x.m && m'[q] != x.m[q];
    ReachesHeld(x.c.w.taskT, x.cell, x.Rest(), q);
  }

  /** No other clearing brings an object back. */
  lemma StaysErased(ty: Type, v: Value, before: seq<Path>, first: Path, rs: seq<Path>)
    requires Clear(ty, v, first) != v
    ensures ClearAll(ty, Clear(ty, ClearAll(ty, v, before), first), rs) != v
  {
    var u, all := ClearAll(ty, v, before), [first] + rs;
    assert all[1..] == rs && ClearAll(ty, u, all) == ClearAll(ty, Clear(ty, u, first), rs);
    ClearAllSettles(ty, u, all, first);
  }

  /** The paths before leave the by-value part as it is. */
  lemma {:induction false} CellStays(w: World, sws: seq<Sweep>, k: nat, c: Cell)
    requires Cut(w.taskT, c, ClearedAt(w, sws, k))
    ensures CellAfter(w, sws, SlotKind(k), c) == c
    decreases |sws|
  {
    if sws != [] {
      assert AimAt(w, sws[0], SlotKind(k)).hit ==> AimAt(w, sws[0], SlotKind(k)).rest in ClearedAt(w, sws, k);
      assert ClearedAt(w, sws[1..], k) <= ClearedAt(w, sws, k);
      CellStays(w, sws[1..], k, c);
    }
  }

  lemma AfterAround(w: World, sws: seq<Sweep>, i: nat, k: Kind, c: Cell, m: Objects)
    requires i < |sws| && CellAfter(w, sws[..i], k, c) == c
    ensures ObjsAfter(w, sws, k, c, m) == ObjsAfter(w, sws[i..], k, c, ObjsAfter(w, sws[..i], k, c, m))
  {
    assert sws == sws[..i] + sws[i..];
    AfterAppend(w, sws[..i], sws[i..], k, c, m);
  }

  /** Of the objects, the paths leave what they do. */
  lemma AfterPaths(x: Trap)
    requires x.Ok()
    ensures x.After() == ObjsAfter(x.c.w, PathSweeps(x.c.w, x.c.paths), SlotKind(x.K()), x.cell, x.m)
  {
    StillHidden(x, x.K());
    AfterAppend(x.c.w, HideSweeps(x.c.Hidden()), PathSweeps(x.c.w, x.c.paths), SlotKind(x.K()), x.cell, x.m);
  }

  /** What the sweeps leave of the objects, the path in question taken apart. */
  lemma AfterInParts(x: Trap) returns (m0: Objects, more: seq<Sweep>)
    requires x.Ok()
    ensures m0 == ObjsAfter(x.c.w, x.Before(), SlotKind(x.K()), x.cell, x.m)
    ensures x.After() == ObjsAfter(x.c.w, more, SlotKind(x.K()), TouchCell(true, x.c.w.taskT, x.cell, x.Rest()),
                                   ClearObjects(x.c.w.taskT, x.cell, x.Rest(), m0))
  {
    var w, ps := x.c.w, PathSweeps(x.c.w, x.c.paths);
    AfterPaths(x);
    CellStays(w, x.Before(), x.K(), x.cell);
    assert ps[..x.at] == x.Before();
    AfterAround(w, ps, x.at, SlotKind(x.K()), x.cell, x.m);
    m0, more := ObjsAfter(w, x.Before(), SlotKind(x.K()), x.cell, x.m), ps[x.at..][1..];
    assert ps[x.at..][0] == PathSweep(w, x.c.paths[x.at]);
  }

  lemma ErasedDiffers(x: Trap)
    requires x.Ok()
    ensures x.Erased() != x.Whole()
  {
    var w, k := x.c.w, SlotKind(x.K());
    var q := ChangedObject(x);
    var errand := Reaches(w.taskT, x.cell, x.Rest(), q).value;
    ReachesRef(w.taskT, x.cell, x.Rest(), q);
    var m0, more := AfterInParts(x);
    var before := ObjectAfter(w, x.Before(), k, x.cell, x.m, q, errand.ty);
    TouchFits(true, w.taskT, x.cell, x.Rest());
    var rs := ObjectAfter(w, more, k, TouchCell(true, w.taskT, x.cell, x.Rest()), ClearObjects(w.taskT, x.cell, x.Rest(), m0), q, errand.ty);
    StaysErased(errand.ty, x.m[q], before, errand.rest, rs);
    assert [] + q == q;
    HeldShows(x.cell, q, [], x.m, x.After());
  }

  // ----- the two slices -----

  // The value sits at place `K()` and far out, blank tasks at all others.

  function Cells(x: Trap, at: Cell): seq<Cell>
    requires x.Shaped()
  {
    seq(x.N() + 1, i requires 0 <= i <= x.N() => if i == x.K() then at else if i == x.N() then x.cell else ZeroCell(x.c.w.taskT))
  }

  function Objs(x: Trap, at: Objects, far: Objects): seq<Objects>
    requires x.Shaped()
  {
    seq(x.N() + 1, i requires 0 <= i <= x.N() => if i == x.K() then at else if i == x.N() then far else map[])
  }

  /** In the first slice, both come from the first poll. */
  function FirstOwners(x: Trap): seq<Owner> {
    seq(x.N() + 1, i requires 0 <= i <= x.N() => Owner(TaskKind, 0, i))
  }

  /** In the second, the one that was far out is at place `K()`, the others are new. */
  function SecondOwners(x: Trap): seq<Owner>
    requires x.Shaped()
  {
    seq(x.N() + 1, i requires 0 <= i <= x.N() =>
      if i < x.K() then Owner(TaskKind, 1, i) else if i == x.K() then Owner(TaskKind, 0, x.N()) else Owner(TaskKind, 1, i - 1))
  }

  function First(x: Trap): (s: Slice)
    requires x.Shaped()
    ensures s.Ok()
  {
    Slice(FirstOwners(x), Cells(x, x.cell), Objs(x, x.m, x.m))
  }

  function Second(x: Trap): (s: Slice)
    requires x.Shaped()
    ensures s.Ok()
  {
    Slice(SecondOwners(x), Cells(x, x.cell), Objs(x, x.m, x.After()))
  }

  /** What redaction leaves of them. */
  function FirstDone(x: Trap): (s: Slice)
    requires x.Shaped()
    ensures s.Ok()
  {
    Slice(FirstOwners(x), Cells(x, x.Bare()), Objs(x, x.After(), x.m))
  }

  function SecondDone(x: Trap): (s: Slice)
    requires x.Shaped()
    ensures s.Ok()
  {
    Slice(SecondOwners(x), Cells(x, x.Bare()), Objs(x, x.After(), x.After()))
  }

  lemma RedactedSlice(x: Trap, owners: seq<Owner>, far: Objects)
    requires x.Ok() && x.Settles(far) && Slice(owners, Cells(x, x.cell), Objs(x, x.m, far)).Ok()
    ensures After(x.c.w, x.c.Sweeps(), Slice(owners, Cells(x, x.cell), Objs(x, x.m, far))) == Slice(owners, Cells(x, x.Bare()), Objs(x, x.After(), far))
  {
    var s := After(x.c.w, x.c.Sweeps(), Slice(owners, Cells(x, x.cell), Objs(x, x.m, far)));
    PathIsListed(x);
    forall i | 0 <= i <= x.N() ensures s.cells[i] == Cells(x, x.Bare())[i] && s.objs[i] == Objs(x, x.After(), far)[i] {
      if i == x.N() {
        StillFar(x, far);
      } else if i != x.K() {
        StillBlank(x.c.w, x.c.Sweeps(), i);
      }
    }
    assert s.cells == Cells(x, x.Bare()) && s.objs == Objs(x, x.After(), far);
  }

  lemma FirstRedacted(x: Trap)
    requires x.Ok()
    ensures After(x.c.w, x.c.Sweeps(), First(x)) == FirstDone(x)
  {
    RedactedSlice(x, FirstOwners(x), x.m);
  }

  lemma SecondRedacted(x: Trap)
    requires x.Ok()
    ensures After(x.c.w, x.c.Sweeps(), Second(x)) == SecondDone(x)
  {
    ErasedSettles(x);
    RedactedSlice(x, SecondOwners(x), x.After());
  }

  /** What the hidden paths leave of the first part of that. */
  lemma HiddenThenPaths(x: Trap, s: Slice)
    requires x.Ok() && s.Ok()
    ensures After(x.c.w, PathSweeps(x.c.w, x.c.paths), After(x.c.w, HideSweeps(x.c.Hidden()), s)) == After(x.c.w, x.c.Sweeps(), s)
  {
    AfterTwice(x.c.w, HideSweeps(x.c.Hidden()), PathSweeps(x.c.w, x.c.paths), s);
  }

  /** When the second slice has been redacted, the first one, whose far task it shares,
      looks just like it. */
  lemma SlicesLookAlike(x: Trap, h: Heap)
    requires x.Ok() && Holds(h, SecondDone(x)) && forall i | 0 <= i < x.N() :: Has(h, Owner(TaskKind, 0, i), FirstDone(x).objs[i])
    ensures Contents(h, FirstDone(x).Elems()) == Contents(h, SecondDone(x).Elems())
    ensures |Contents(h, FirstDone(x).Elems())| == x.N() + 1 && Contents(h, FirstDone(x).Elems())[x.N()] == x.Erased()
  {
    PathIsListed(x);
    var first, second := FirstDone(x), SecondDone(x);
    assert Has(h, second.owners[x.K()], second.objs[x.K()]);
    forall i | 0 <= i <= x.N() ensures Content(h, first.Elems()[i]) == Content(h, second.Elems()[i]) {
      assert Has(h, second.owners[i], second.objs[i]);
      if i < x.N() {
        assert Has(h, Owner(TaskKind, 0, i), first.objs[i]);
      }
    }
    assert Has(h, second.owners[x.N()], second.objs[x.N()]);
  }
}
