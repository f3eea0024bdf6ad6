/** Slices of tasks that share no objects among themselves: what sweeping them in place
    leaves of each task, by-value part and objects. */
module Slices {
  import opened Text
  import opened PathSyntax
  import opened Values
  import opened PathClear
  import opened Memory
  import opened Shallow
  import opened Snapshots
  import opened SnapshotClear

  // ----- one task -----

  function CellAfter(w: World, sws: seq<Sweep>, k: Kind, c: Cell): Cell
    decreases |sws|
  {
    if sws == [] then c
    else CellAfter(w, sws[1..], k, TouchCell(AimAt(w, sws[0], k).hit, TypeOf(w, k), c, AimAt(w, sws[0], k).rest))
  }

  function ObjsAfter(w: World, sws: seq<Sweep>, k: Kind, c: Cell, m: Objects): Objects
    decreases |sws|
  {
    if sws == [] then m
    else
      var aim, ty := AimAt(w, sws[0], k), TypeOf(w, k);
      ObjsAfter(w, sws[1..], k, TouchCell(aim.hit, ty, c, aim.rest), if aim.hit then ClearObjects(ty, c, aim.rest, m) else m)
  }

  lemma {:induction false} AfterIs(w: World, sws: seq<Sweep>, k: Kind, h: Heap, e: Elem)
    requires e.owner in h
    ensures ElemAfter(w, sws, k, e) == Elem(e.owner, CellAfter(w, sws, k, e.cell))
    ensures HeapAfter(w, sws, k, h, e) == h[e.owner := ObjsAfter(w, sws, k, e.cell, h[e.owner])]
    decreases |sws|
  {
    if sws == [] {
      assert h[e.owner := h[e.owner]] == h;
    } else {
      var h1, e1 := TouchHeap(w, sws[0], k, h, e), TouchElem(w, sws[0], k, e);
      AfterIs(w, sws[1..], k, h1, e1);
      var m := ObjsAfter(w, sws[1..], k, e1.cell, h1[e.owner]);
      assert h1[e.owner := m] == h[e.owner := m];
    }
  }

  lemma {:induction false} AfterAppend(w: World, sws: seq<Sweep>, more: seq<Sweep>, k: Kind, c: Cell, m: Objects)
    ensures CellAfter(w, sws + more, k, c) == CellAfter(w, more, k, CellAfter(w, sws, k, c))
    ensures ObjsAfter(w, sws + more, k, c, m) == ObjsAfter(w, more, k, CellAfter(w, sws, k, c), ObjsAfter(w, sws, k, c, m))
    decreases |sws|
  {
    if sws == [] {
      assert sws + more == more;
    } else {
      var aim, ty := AimAt(w, sws[0], k), TypeOf(w, k);
      assert (sws + more)[1..] == sws[1..] + more;
      AfterAppend(w, sws[1..], more, k, TouchCell(aim.hit, ty, c, aim.rest), if aim.hit then ClearObjects(ty, c, aim.rest, m) else m);
    }
  }

  /** A task that every sweep which reaches its place leaves alone. */
  lemma {:induction false} StillAfter(w: World, sws: seq<Sweep>, k: Kind, c: Cell, m: Objects)
    requires forall sw | sw in sws && AimAt(w, sw, k).hit :: Still(TypeOf(w, k), c, m, AimAt(w, sw, k).rest)
    ensures CellAfter(w, sws, k, c) == c && ObjsAfter(w, sws, k, c, m) == m
    decreases |sws|
  {
    if sws != [] {
      StillAfter(w, sws[1..], k, c, m);
    }
  }

  predicate Still(ty: Type, c: Cell, m: Objects, e: Path) {
    TouchCell(true, ty, c, e) == c && ClearObjects(ty, c, e, m) == m
  }

  lemma StillIfFixed(ty: Type, c: Cell, m: Objects, e: Path)
    requires Fits(ty, c) && Tight(c, [], m) && e != [] && Touch(true, ty, Load(c, [], m), e) == Load(c, [], m)
    ensures Still(ty, c, m, e)
  {
    FixedCell(ty, c, [], m, e);
    FixedObjects(ty, c, m, e);
  }

  lemma StillIfZero(ty: Type, e: Path)
    ensures Still(ty, ZeroCell(ty), map[], e)
  {
    ZeroCellStays(ty, e);
  }

  /** What sweeps do to the object at `q`: they clear some paths from it. */
  lemma {:induction false} ObjectAfter(w: World, sws: seq<Sweep>, k: Kind, c: Cell, m: Objects, q: Position, ty: Type) returns (rs: seq<Path>)
    requires Fits(TypeOf(w, k), c) && q in m && RefAt(TypeOf(w, k), q) == Some(ty)
    ensures q in ObjsAfter(w, sws, k, c, m) && ObjsAfter(w, sws, k, c, m)[q] == ClearAll(ty, m[q], rs)
    decreases |sws|
  {
    if sws == [] {
      rs := [];
    } else {
      var aim, t := AimAt(w, sws[0], k), TypeOf(w, k);
      var c1, m1 := TouchCell(aim.hit, t, c, aim.rest), if aim.hit then ClearObjects(t, c, aim.rest, m) else m;
      TouchFits(aim.hit, t, c, aim.rest);
      rs := ObjectAfter(w, sws[1..], k, c1, m1, q, ty);
      var errand := Reaches(t, c, aim.rest, q);
      if aim.hit && errand.Some? {
        ReachesRef(t, c, aim.rest, q);
        assert ([errand.value.rest] + rs)[1..] == rs;
        rs := [errand.value.rest] + rs;
      }
    }
  }

  /** They keep objects typed, and references that lead somewhere lead somewhere still. */
  lemma {:induction false} ObjectsKept(w: World, sws: seq<Sweep>, k: Kind, c: Cell, m: Objects)
    requires Fits(TypeOf(w, k), c) && Typed(TypeOf(w, k), m)
    ensures var m' := ObjsAfter(w, sws, k, c, m);
            Typed(TypeOf(w, k), m') && m'.Keys == m.Keys && forall q | q in m && m[q] != Nil :: m'[q] != Nil
    decreases |sws|
  {
    if sws != [] {
      var aim, t := AimAt(w, sws[0], k), TypeOf(w, k);
      TouchFits(aim.hit, t, c, aim.rest);
      if aim.hit {
        ClearObjectsTyped(t, c, aim.rest, m);
        NeverNil(t, c, aim.rest, m);
      }
      ObjectsKept(w, sws[1..], k, TouchCell(aim.hit, t, c, aim.rest), if aim.hit then ClearObjects(t, c, aim.rest, m) else m);
    }
  }

  lemma NeverNil(ty: Type, c: Cell, parts: Path, m: Objects)
    ensures forall q | q in m && m[q] != Nil :: ClearObjects(ty, c, parts, m)[q] != Nil
  {
    forall q | q in m && m[q] != Nil ensures ClearObjects(ty, c, parts, m)[q] != Nil {
      var errand := Reaches(ty, c, parts, q);
      if errand.Some? {
        ClearIsNotNil(errand.value.ty, m[q], errand.value.rest);
      }
    }
  }

  lemma ClearIsNotNil(ty: Type, v: Value, p: Path)
    requires v != Nil
    ensures Clear(ty, v, p) != Nil
  {
    if p != [] && !ty.PtrT? {
      assert Clear(ty, v, p) == ClearIn(ty, v, p);
      match ty
      case SliceT(e) => assert ClearIn(ty, v, p) == ClearElems(e, v, p);
      case ArrayT(_, e) => assert ClearIn(ty, v, p) == ClearElems(e, v, p);
      case _ =>
    }
  }

  lemma {:induction false} TightKept(c: Cell, pos: Position, m: Objects, m': Objects)
    requires Tight(c, pos, m) && forall q | q in m && m[q] != Nil :: q in m' && m'[q] != Nil
    ensures Tight(c, pos, m')
  {
    match c
    case Rec(cs) =>
      forall i | 0 <= i < |cs| ensures Tight(cs[i], pos + [i], m') {
        TightKept(cs[i], pos + [i], m, m');
      }
    case Arr(cs) =>
      forall i | 0 <= i < |cs| ensures Tight(cs[i], pos + [i], m') {
        TightKept(cs[i], pos + [i], m, m');
      }
    case _ =>
  }

  /** What paths leave alone in a value that shares the objects, they leave alone after. */
  lemma {:induction false} FixedAfter(w: World, sws: seq<Sweep>, k: Kind, c: Cell, m: Objects, u: Cell, es: set<Path>)
    requires Fits(TypeOf(w, k), c) && Fits(TypeOf(w, k), u) && Fixed(TypeOf(w, k), Load(u, [], m), es)
    ensures Fixed(TypeOf(w, k), Load(u, [], ObjsAfter(w, sws, k, c, m)), es)
    decreases |sws|
  {
    if sws != [] {
      var aim, t := AimAt(w, sws[0], k), TypeOf(w, k);
      TouchFits(aim.hit, t, c, aim.rest);
      var m1 := if aim.hit then ClearObjects(t, c, aim.rest, m) else m;
      if aim.hit {
        ClearedHere(t, c, aim.rest, m);
        SharedClear(t, u, c, aim.rest, [], m, m1);
        forall e | e in es ensures Touch(true, t, Load(u, [], m1), e) == Load(u, [], m1) {
          BeyondCommutesTouch(t, c, aim.rest, Load(u, [], m), true, e);
        }
      }
      FixedAfter(w, sws[1..], k, TouchCell(aim.hit, t, c, aim.rest), m1, u, es);
    }
  }

  // ----- a slice -----

  datatype Slice = Slice(owners: seq<Owner>, cells: seq<Cell>, objs: seq<Objects>) {
    predicate Ok() {
      && |owners| == |cells| == |objs|
      && (forall i | 0 <= i < |owners| :: owners[i].kind.TaskKind?)
      && (forall i, j | 0 <= i < j < |owners| :: owners[i] != owners[j])
    }

    function Elems(): seq<Elem> requires |owners| == |cells| {
      seq(|owners|, i requires 0 <= i < |owners| => Elem(owners[i], cells[i]))
    }
  }

  predicate Has(h: Heap, o: Owner, m: Objects) {
    o in h && h[o] == m
  }

  /** The slice's objects are in memory. */
  predicate Holds(h: Heap, s: Slice)
    requires s.Ok()
  {
    forall i | 0 <= i < |s.owners| :: Has(h, s.owners[i], s.objs[i])
  }

  /** The objects of all other tasks are as they were. */
  predicate Besides(h: Heap, h': Heap, owners: seq<Owner>) {
    forall o | o in h && o.kind.TaskKind? && o !in owners :: Has(h', o, h[o])
  }

  function After(w: World, sws: seq<Sweep>, s: Slice): (r: Slice)
    requires s.Ok()
    ensures r.Ok() && r.owners == s.owners
  {
    Slice(s.owners,
          seq(|s.cells|, i requires 0 <= i < |s.cells| => CellAfter(w, sws, SlotKind(i), s.cells[i])),
          seq(|s.cells|, i requires 0 <= i < |s.cells| => ObjsAfter(w, sws, SlotKind(i), s.cells[i], s.objs[i])))
  }

  lemma AfterTwice(w: World, sws: seq<Sweep>, more: seq<Sweep>, s: Slice)
    requires s.Ok()
    ensures After(w, more, After(w, sws, s)) == After(w, sws + more, s)
  {
    var x, y := After(w, more, After(w, sws, s)), After(w, sws + more, s);
    forall i | 0 <= i < |s.cells| ensures x.cells[i] == y.cells[i] && x.objs[i] == y.objs[i] {
      AfterAppend(w, sws, more, SlotKind(i), s.cells[i], s.objs[i]);
    }
    assert x.cells == y.cells && x.objs == y.objs;
  }

  lemma AfterNone(w: World, s: Slice)
    requires s.Ok()
    ensures After(w, [], s) == s
  {
    assert After(w, [], s).cells == s.cells && After(w, [], s).objs == s.objs;
  }

  /** The first `n` tasks have been swept. */
  ghost predicate SweptTo(w: World, sws: seq<Sweep>, h: Heap, s: Slice, h': Heap, n: nat)
    requires s.Ok()
  {
    && (forall i | 0 <= i < |s.owners| :: Has(h', s.owners[i], if i < n then After(w, sws, s).objs[i] else s.objs[i]))
    && (forall o | o in h && o !in s.owners :: Has(h', o, h[o]))
  }

  lemma {:induction false} SweepSlice(w: World, sws: seq<Sweep>, h: Heap, s: Slice, n: nat)
    requires s.Ok() && Holds(h, s) && n <= |s.owners|
    ensures SweptTo(w, sws, h, s, SweepHeap(w, sws, false, h, s.Elems(), n), n)
  {
    if n == 0 {
      assert forall i | 0 <= i < |s.owners| :: Has(h, s.owners[i], s.objs[i]);
    } else {
      SweepSlice(w, sws, h, s, n - 1);
      SweptNext(w, sws, h, s, SweepHeap(w, sws, false, h, s.Elems(), n - 1), n);
    }
  }

  lemma SweptNext(w: World, sws: seq<Sweep>, h: Heap, s: Slice, mid: Heap, n: nat)
    requires s.Ok() && 0 < n <= |s.owners| && SweptTo(w, sws, h, s, mid, n - 1)
    ensures SweptTo(w, sws, h, s, HeapAfter(w, sws, SlotKind(n - 1), mid, s.Elems()[n - 1]), n)
  {
    var h' := HeapAfter(w, sws, SlotKind(n - 1), mid, s.Elems()[n - 1]);
    assert Has(mid, s.owners[n - 1], s.objs[n - 1]);
    AfterIs(w, sws, SlotKind(n - 1), mid, s.Elems()[n - 1]);
    assert h' == mid[s.owners[n - 1] := After(w, sws, s).objs[n - 1]];
    forall i | 0 <= i < |s.owners| ensures Has(h', s.owners[i], if i < n then After(w, sws, s).objs[i] else s.objs[i]) {
      assert Has(mid, s.owners[i], if i < n - 1 then After(w, sws, s).objs[i] else s.objs[i]);
    }
    forall o | o in h && o !in s.owners ensures Has(h', o, h[o]) {
      assert Has(mid, o, h[o]);
    }
  }

  lemma SweepSliceElems(w: World, sws: seq<Sweep>, h: Heap, s: Slice)
    requires s.Ok() && Holds(h, s)
    ensures SweepElems(w, sws, false, s.Elems()) == After(w, sws, s).Elems()
  {
    forall i | 0 <= i < |s.owners| ensures SweepElems(w, sws, false, s.Elems())[i] == After(w, sws, s).Elems()[i] {
      assert Has(h, s.owners[i], s.objs[i]);
      AfterIs(w, sws, SlotKind(i), h, s.Elems()[i]);
    }
  }

  /** What sweeping a slice leaves in the store. */
  lemma SweepTasksSlice(w: World, sws: seq<Sweep>, st: Store, a: nat, s: Slice)
    requires s.Ok() && Holds(st.heap, s) && a in st.arrays && st.arrays[a] == s.Elems()
    ensures var st' := SweepTasks(w, sws, st, a);
            && st'.arrays == st.arrays[a := After(w, sws, s).Elems()]
            && Holds(st'.heap, After(w, sws, s)) && Besides(st.heap, st'.heap, s.owners)
  {
    var h' := SweepTasks(w, sws, st, a).heap;
    SweepSlice(w, sws, st.heap, s, |s.owners|);
    SweepSliceElems(w, sws, st.heap, s);
  }

  // ----- a snapshot -----

  predicate LeadOnly(lead: seq<Elem>) {
    forall i | 0 <= i < |lead| :: lead[i].owner.kind.LeadKind?
  }

  /** Sweeping leading fields leaves the objects of tasks alone. */
  lemma {:induction false} LeadKeepsTasks(w: World, sw: Sweep, h: Heap, lead: seq<Elem>, n: nat)
    requires n <= |lead| && LeadOnly(lead)
    ensures Besides(h, SweepHeap(w, [sw], true, h, lead, n), [])
  {
    if n > 0 {
      LeadKeepsTasks(w, sw, h, lead, n - 1);
      AfterOne(w, sw, LeadKind(n - 1), SweepHeap(w, [sw], true, h, lead, n - 1), lead[n - 1]);
    }
  }

  lemma LeadStaysLead(w: World, sw: Sweep, lead: seq<Elem>)
    requires LeadOnly(lead)
    ensures LeadOnly(SweepElems(w, [sw], true, lead))
  {
    forall i | 0 <= i < |lead| ensures SweepElems(w, [sw], true, lead)[i].owner == lead[i].owner {
      AfterOne(w, sw, LeadKind(i), map[], lead[i]);
    }
  }

  function LeadAfter(w: World, ps: seq<Path>, lead: seq<Elem>): seq<Elem>
    decreases |ps|
  {
    if ps == [] then lead else LeadAfter(w, ps[1..], SweepElems(w, [PathSweep(w, ps[0])], true, lead))
  }

  predicate Shows(x: Shot, a: nat, s: Slice)
    requires s.Ok()
  {
    LeadOnly(x.snap.lead) && x.snap.tasks == Some(a) && a in x.store.arrays && x.store.arrays[a] == s.Elems() && Holds(x.store.heap, s)
  }

  /** `y` is `x` with the slice as it has become. */
  predicate Becomes(x: Shot, y: Shot, a: nat, s: Slice)
    requires s.Ok()
  {
    && Shows(y, a, s) && y.store.arrays == x.store.arrays[a := s.Elems()] && Besides(x.store.heap, y.store.heap, s.owners)
  }

  lemma BesidesHolds(h: Heap, h': Heap, s: Slice)
    requires s.Ok() && Holds(h, s) && Besides(h, h', [])
    ensures Holds(h', s)
  {
    forall i | 0 <= i < |s.owners| ensures Has(h', s.owners[i], s.objs[i]) {
      assert Has(h, s.owners[i], s.objs[i]);
    }
  }

  lemma ClearShotSlice(w: World, p: Path, x: Shot, a: nat, s: Slice)
    requires s.Ok() && Shows(x, a, s) && !CutsTasks(w, p)
    ensures var y := ClearShot(w, p, x);
            Becomes(x, y, a, After(w, [PathSweep(w, p)], s)) && y.snap.lead == SweepElems(w, [PathSweep(w, p)], true, x.snap.lead)
  {
    var sw := PathSweep(w, p);
    var mid := ClearLead(w, p, x);
    LeadKeepsTasks(w, sw, x.store.heap, x.snap.lead, |x.snap.lead|);
    LeadStaysLead(w, sw, x.snap.lead);
    BesidesHolds(x.store.heap, mid.store.heap, s);
    SweepTasksSlice(w, [sw], mid.store, a, s);
    BesidesTrans(x.store.heap, mid.store.heap, ClearShot(w, p, x).store.heap, [], s.owners);
  }

  lemma BesidesTrans(f: Heap, g: Heap, h: Heap, some: seq<Owner>, owners: seq<Owner>)
    requires Besides(f, g, some) && Besides(g, h, owners) && forall o | o in some :: o in owners
    ensures Besides(f, h, owners)
  {
    forall o | o in f && o.kind.TaskKind? && o !in owners ensures Has(h, o, f[o]) {
      assert Has(g, o, f[o]);
      assert Has(h, o, g[o]);
    }
  }

  /** What clearing a list of paths in place leaves of a snapshot. */
  ghost predicate ListCleared(w: World, ps: seq<Path>, x: Shot, y: Shot, a: nat, s: Slice)
    requires s.Ok()
  {
    Becomes(x, y, a, After(w, PathSweeps(w, ps), s)) && y.snap.lead == LeadAfter(w, ps, x.snap.lead)
  }

  lemma {:induction false} ClearPathsSlice(w: World, ps: seq<Path>, x: Shot, a: nat, s: Slice)
    requires s.Ok() && Shows(x, a, s) && forall p | p in ps :: !CutsTasks(w, p)
    ensures ListCleared(w, ps, x, ClearPaths(w, ps, x), a, s)
    decreases |ps|
  {
    if ps == [] {
      AfterNone(w, s);
      assert x.store.arrays[a := s.Elems()] == x.store.arrays;
    } else {
      ClearShotSlice(w, ps[0], x, a, s);
      ClearPathsSlice(w, ps[1..], ClearShot(w, ps[0], x), a, After(w, [PathSweep(w, ps[0])], s));
      OneThenList(w, ps, x, ClearShot(w, ps[0], x), ClearPaths(w, ps, x), a, s);
    }
  }

  lemma OneThenList(w: World, ps: seq<Path>, x: Shot, mid: Shot, y: Shot, a: nat, s: Slice)
    requires s.Ok() && ps != [] && Becomes(x, mid, a, After(w, [PathSweep(w, ps[0])], s))
    requires mid.snap.lead == SweepElems(w, [PathSweep(w, ps[0])], true, x.snap.lead)
    requires ListCleared(w, ps[1..], mid, y, a, After(w, [PathSweep(w, ps[0])], s))
    ensures ListCleared(w, ps, x, y, a, s)
  {
    AfterTwice(w, [PathSweep(w, ps[0])], PathSweeps(w, ps[1..]), s);
    assert [PathSweep(w, ps[0])] + PathSweeps(w, ps[1..]) == PathSweeps(w, ps);
    BecomesTrans(x, mid, y, a, After(w, [PathSweep(w, ps[0])], s), After(w, PathSweeps(w, ps), s));
  }

  lemma BecomesTrans(x: Shot, y: Shot, z: Shot, a: nat, s: Slice, t: Slice)
    requires s.Ok() && t.Ok() && s.owners == t.owners && Becomes(x, y, a, s) && Becomes(y, z, a, t)
    ensures Becomes(x, z, a, t)
  {
    BesidesTrans(x.store.heap, y.store.heap, z.store.heap, s.owners, t.owners);
    assert x.store.arrays[a := s.Elems()][a := t.Elems()] == x.store.arrays[a := t.Elems()];
  }
}
