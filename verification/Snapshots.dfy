/** Snapshots assembled from shared memory, and redaction by clearing paths in
    place. A sweep clears one path wherever it leads; the point is what it may do
    to other snapshots and cached tasks that share the memory. */
module Snapshots {
  import opened Text
  import opened PathSyntax
  import opened Values
  import opened PathClear
  import opened PathMatch
  import opened Memory
  import opened Shallow

  /** The type of a snapshot: leading fields, then the slice of tasks. */
  datatype World = World(lead: seq<Field>, tasksField: Field, taskT: Type) {
    predicate Ok() { tasksField.ty == SliceT(taskT) }
    function Fields(): seq<Field> { lead + [tasksField] }
    function RootT(): Type { StructT(Fields()) }
  }

  /** What a value is: a leading field, a task, or a task seen at its place in a slice. */
  datatype Kind = LeadKind(field: nat) | TaskKind | SlotKind(slot: nat)

  /** A fetched value: a leading field of some round, or a task of some poll, by its
      index there. */
  datatype Owner = Owner(kind: Kind, serial: nat, index: nat)

  datatype Elem = Elem(owner: Owner, cell: Cell)

  /** The objects behind the references of every fetched value. */
  type Heap = map<Owner, Objects>

  /** Objects, and the backing arrays of task slices. */
  datatype Store = Store(heap: Heap, arrays: map<nat, seq<Elem>>)

  datatype Snapshot = Snapshot(lead: seq<Elem>, tasks: Option<nat>)

  function TypeOf(w: World, k: Kind): Type {
    if k.LeadKind? && k.field < |w.lead| then w.lead[k.field].ty else w.taskT
  }

  function Content(h: Heap, e: Elem): Value {
    Load(e.cell, [], if e.owner in h then h[e.owner] else map[])
  }

  function Contents(h: Heap, es: seq<Elem>): seq<Value> {
    seq(|es|, i requires 0 <= i < |es| => Content(h, es[i]))
  }

  function TasksIn(st: Store, tasks: Option<nat>): Option<seq<Value>> {
    if tasks.Some? && tasks.value in st.arrays then Some(Contents(st.heap, st.arrays[tasks.value])) else None
  }

  function TasksValue(tasks: Option<seq<Value>>): Value {
    if tasks.None? then Nil else List(tasks.value)
  }

  function Root(lead: seq<Value>, tasks: Value): Value {
    Struct(lead + [tasks])
  }

  /** What a snapshot shows: what is compared, and what is marshalled. */
  function SnapContent(st: Store, s: Snapshot): Value {
    Root(Contents(st.heap, s.lead), TasksValue(TasksIn(st, s.tasks)))
  }

  // ----- sweeps and their effect on one value -----

  /** Which tasks a path goes into, and how it goes on there. */
  datatype TaskAim = Nowhere | Everywhere(rest: Path) | Only(slot: nat, rest: Path)

  /** A path from the root of a snapshot, and what it means for the tasks. */
  datatype Sweep = Sweep(lead: Path, task: TaskAim)

  datatype Aim = Aim(hit: bool, rest: Path)

  function AimAt(w: World, sw: Sweep, k: Kind): Aim {
    match k
    case LeadKind(i) => if sw.lead == [] then Aim(false, []) else Aim(FieldHit(w.Fields(), sw.lead[0], i), sw.lead[1..])
    case TaskKind => if sw.task.Everywhere? then Aim(true, sw.task.rest) else Aim(false, [])
    case SlotKind(j) =>
      match sw.task
      case Nowhere => Aim(false, [])
      case Everywhere(rest) => Aim(true, rest)
      case Only(i, rest) => Aim(i == j, rest)
  }

  function Effect(w: World, sw: Sweep, k: Kind, x: Value): Value {
    Touch(AimAt(w, sw, k).hit, TypeOf(w, k), x, AimAt(w, sw, k).rest)
  }

  function Effects(w: World, sws: seq<Sweep>, k: Kind, x: Value): Value
    decreases |sws|
  {
    if sws == [] then x else Effects(w, sws[1..], k, Effect(w, sws[0], k, x))
  }

  predicate TasksHit(w: World, p: Path) {
    p != [] && FieldHit(w.Fields(), p[0], |w.lead|)
  }

  /** For the tasks field itself, nothing of any task is left. */
  function PathSweep(w: World, p: Path): Sweep {
    Sweep(p,
      if !TasksHit(w, p) then Nowhere
      else if |p| == 1 then Everywhere([])
      else if p[1] == WILDCARD then Everywhere(p[2..])
      else match LeastHit(p[1])
        case None => Nowhere
        case Some(k) => Only(k, p[2..]))
  }

  function HideSweep(h: Path): Sweep {
    Sweep([], Everywhere(h))
  }

  /** The paths that are cleared from every task. */
  ghost function Wide(sws: seq<Sweep>): set<Path> {
    set sw | sw in sws && sw.task.Everywhere? :: sw.task.rest
  }

  /** The paths that sweeps clear from the task at place `j`. */
  ghost function ClearedAt(w: World, sws: seq<Sweep>, j: nat): set<Path> {
    set sw | sw in sws && AimAt(w, sw, SlotKind(j)).hit :: AimAt(w, sw, SlotKind(j)).rest
  }

  /** After the sweeps `before`, a sweep of one place in the slice of tasks changes
      nothing behind a reference that the sweeps of every task leave. */
  ghost predicate Tame(w: World, all: seq<Sweep>, before: seq<Sweep>, sw: Sweep) {
    sw.task.Only? ==> IsShallow(w.taskT, Wide(all), ClearedAt(w, before, sw.task.slot), sw.task.rest)
  }

  /** Among all these sweeps, and after some, a path that names a task by its number goes
      on behind no reference to anything it could still change. */
  ghost predicate HarmlessAmong(w: World, all: seq<Sweep>, before: seq<Sweep>, p: Path) {
    Tame(w, all, before, PathSweep(w, p))
  }

  /** Harmless by itself. */
  ghost predicate Harmless(w: World, p: Path) {
    HarmlessAmong(w, [PathSweep(w, p)], [], p)
  }

  /** A by-value part that sweeps have cleared, if it is a task at its place. */
  ghost predicate CutBy(w: World, before: seq<Sweep>, k: Kind, c: Cell) {
    k.SlotKind? ==> Cut(w.taskT, c, ClearedAt(w, before, k.slot))
  }

  lemma EffectIdempotent(w: World, sw: Sweep, k: Kind, x: Value)
    ensures Effect(w, sw, k, Effect(w, sw, k, x)) == Effect(w, sw, k, x)
  {
    Idempotent(TypeOf(w, k), x, AimAt(w, sw, k).rest);
  }

  lemma EffectCommutes(w: World, sw: Sweep, sw': Sweep, k: Kind, x: Value)
    ensures Effect(w, sw, k, Effect(w, sw', k, x)) == Effect(w, sw', k, Effect(w, sw, k, x))
  {
    var a, b := AimAt(w, sw, k), AimAt(w, sw', k);
    CommuteTouch(TypeOf(w, k), x, a.hit, a.rest, b.hit, b.rest);
  }

  lemma {:induction false} EffectsSwap(w: World, sws: seq<Sweep>, sw: Sweep, k: Kind, x: Value)
    ensures Effects(w, sws, k, Effect(w, sw, k, x)) == Effect(w, sw, k, Effects(w, sws, k, x))
    decreases |sws|
  {
    if sws != [] {
      EffectCommutes(w, sws[0], sw, k, x);
      EffectsSwap(w, sws[1..], sw, k, Effect(w, sws[0], k, x));
    }
  }

  /** A list of sweeps leaves nothing for any of them to do. */
  lemma {:induction false} EffectsSettle(w: World, sws: seq<Sweep>, sw: Sweep, k: Kind, x: Value)
    requires sw in sws
    ensures Effect(w, sw, k, Effects(w, sws, k, x)) == Effects(w, sws, k, x)
    ensures Effects(w, sws, k, Effect(w, sw, k, x)) == Effects(w, sws, k, x)
    decreases |sws|
  {
    EffectsSwap(w, sws, sw, k, x);
    if sw == sws[0] {
      EffectsSwap(w, sws[1..], sw, k, Effect(w, sw, k, x));
      EffectIdempotent(w, sw, k, x);
    } else {
      EffectsSettle(w, sws[1..], sw, k, Effect(w, sws[0], k, x));
    }
  }

  lemma {:induction false} EffectsAppend(w: World, sws: seq<Sweep>, more: seq<Sweep>, k: Kind, x: Value)
    ensures Effects(w, sws + more, k, x) == Effects(w, more, k, Effects(w, sws, k, x))
    decreases |sws|
  {
    if sws == [] {
      assert sws + more == more;
    } else {
      assert (sws + more)[1..] == sws[1..] + more;
      EffectsAppend(w, sws[1..], more, k, Effect(w, sws[0], k, x));
    }
  }

  lemma {:induction false} EffectsAbsorb(w: World, sws: seq<Sweep>, some: seq<Sweep>, k: Kind, x: Value)
    requires forall sw | sw in some :: sw in sws
    ensures Effects(w, some, k, Effects(w, sws, k, x)) == Effects(w, sws, k, x)
    decreases |some|
  {
    if some != [] {
      EffectsSettle(w, sws, some[0], k, x);
      EffectsAbsorb(w, sws, some[1..], k, x);
    }
  }

  lemma {:induction false} EffectsForget(w: World, sws: seq<Sweep>, some: seq<Sweep>, k: Kind, x: Value)
    requires forall sw | sw in some :: sw in sws
    ensures Effects(w, sws, k, Effects(w, some, k, x)) == Effects(w, sws, k, x)
    decreases |some|
  {
    if some != [] {
      EffectsForget(w, sws, some[1..], k, Effect(w, some[0], k, x));
      EffectsSettle(w, sws, some[0], k, x);
    }
  }

  lemma EffectsOne(w: World, sw: Sweep, k: Kind, x: Value)
    ensures Effects(w, [sw], k, x) == Effect(w, sw, k, x)
  {
  }

  /** A task counts as redacted at its place only if it does as a task. */
  lemma {:induction false} SlotForgets(w: World, sws: seq<Sweep>, some: seq<Sweep>, j: nat, x: Value)
    requires forall sw | sw in some :: sw in sws
    ensures Effects(w, sws, SlotKind(j), Effects(w, some, TaskKind, x)) == Effects(w, sws, SlotKind(j), x)
    decreases |some|
  {
    if some != [] {
      SlotForgets(w, sws, some[1..], j, Effect(w, some[0], TaskKind, x));
      EffectsSettle(w, sws, some[0], SlotKind(j), x);
    }
  }

  lemma {:induction false} SlotAbsorbs(w: World, sws: seq<Sweep>, some: seq<Sweep>, j: nat, x: Value)
    requires forall sw | sw in some :: sw in sws
    ensures Effects(w, some, TaskKind, Effects(w, sws, SlotKind(j), x)) == Effects(w, sws, SlotKind(j), x)
    decreases |some|
  {
    if some != [] {
      EffectsSettle(w, sws, some[0], SlotKind(j), x);
      SlotAbsorbs(w, sws, some[1..], j, x);
    }
  }

  // ----- what sharing may change -----

  predicate ElemOk(w: World, h: Heap, e: Elem) {
    && e.owner in h && !e.owner.kind.SlotKind?
    && Fits(TypeOf(w, e.owner.kind), e.cell)
  }

  predicate HeapOk(w: World, h: Heap) {
    forall o | o in h :: Typed(TypeOf(w, o.kind), h[o])
  }

  predicate StoreOk(w: World, st: Store) {
    && HeapOk(w, st.heap)
    && forall a | a in st.arrays :: ElemsOk(w, false, st.heap, st.arrays[a])
  }

  /** Where the i-th element sits: among the leading fields, or among the tasks. */
  function Seat(lead: bool, i: nat): Kind {
    if lead then LeadKind(i) else SlotKind(i)
  }

  predicate InSeat(k: Kind, e: Elem) {
    if k.SlotKind? then e.owner.kind.TaskKind? else e.owner.kind == k
  }

  predicate ElemsOk(w: World, lead: bool, h: Heap, es: seq<Elem>) {
    forall i | 0 <= i < |es| :: ElemOk(w, h, es[i]) && InSeat(Seat(lead, i), es[i])
  }

  predicate SnapOk(w: World, st: Store, s: Snapshot) {
    && |s.lead| == |w.lead| && ElemsOk(w, true, st.heap, s.lead)
    && (s.tasks.Some? ==> s.tasks.value in st.arrays)
  }

  /** A change the sweeps would make anyway, none at all to what they would leave alone,
      and none to what any sweep leaves alone that it would not leave alone after. */
  ghost predicate Mild(w: World, all: seq<Sweep>, k: Kind, before: Value, after: Value) {
    && Effects(w, all, k, after) == Effects(w, all, k, before)
    && (Effects(w, all, k, before) == before ==> after == before)
    && forall sw | Effect(w, sw, k, before) == before :: Effect(w, sw, k, after) == after
  }

  /** Whatever by-value part shares the objects changes mildly. */
  ghost predicate GentleHeap(w: World, all: seq<Sweep>, h: Heap, h': Heap) {
    && h.Keys == h'.Keys
    && forall e | ElemOk(w, h, e) :: Mild(w, all, e.owner.kind, Content(h, e), Content(h', e))
  }

  /** So does every task at its place in every array. */
  ghost predicate Gentle(w: World, all: seq<Sweep>, st: Store, st': Store) {
    && GentleHeap(w, all, st.heap, st'.heap) && st.arrays.Keys == st'.arrays.Keys
    && forall a | a in st.arrays :: GentleArray(w, all, st.heap, st.arrays[a], st'.heap, st'.arrays[a])
  }

  ghost predicate GentleArray(w: World, all: seq<Sweep>, h: Heap, es: seq<Elem>, h': Heap, es': seq<Elem>) {
    |es| == |es'| && forall j | 0 <= j < |es| :: Mild(w, all, SlotKind(j), Content(h, es[j]), Content(h', es'[j]))
  }

  /** The sweeps leave the value alone. */
  ghost predicate FixedBy(w: World, sws: seq<Sweep>, k: Kind, x: Value) {
    forall sw | sw in sws :: Effect(w, sw, k, x) == x
  }

  lemma {:induction false} EffectsOfFixed(w: World, sws: seq<Sweep>, k: Kind, x: Value)
    requires FixedBy(w, sws, k, x)
    ensures Effects(w, sws, k, x) == x
    decreases |sws|
  {
    if sws != [] {
      EffectsOfFixed(w, sws[1..], k, x);
    }
  }

  lemma FixedOfEffects(w: World, sws: seq<Sweep>, k: Kind, x: Value)
    requires Effects(w, sws, k, x) == x
    ensures FixedBy(w, sws, k, x)
  {
    forall sw | sw in sws ensures Effect(w, sw, k, x) == x {
      EffectsSettle(w, sws, sw, k, x);
    }
  }

  /** A mild change that leaves nothing to do has done just what the sweeps do. */
  lemma NormalForm(w: World, all: seq<Sweep>, k: Kind, x: Value, y: Value)
    requires Mild(w, all, k, x, y) && FixedBy(w, all, k, y)
    ensures y == Effects(w, all, k, x)
  {
    EffectsOfFixed(w, all, k, y);
  }

  /** What some of the sweeps do is mild. */
  lemma SweepIsMild(w: World, all: seq<Sweep>, sws: seq<Sweep>, k: Kind, x: Value)
    requires forall sw | sw in sws :: sw in all
    ensures Mild(w, all, k, x, Effects(w, sws, k, x)) && FixedBy(w, sws, k, Effects(w, sws, k, x))
  {
    EffectsForget(w, all, sws, k, x);
    EffectsAbsorb(w, all, sws, k, x);
    forall sw | Effect(w, sw, k, x) == x ensures Effect(w, sw, k, Effects(w, sws, k, x)) == Effects(w, sws, k, x) {
      EffectsSwap(w, sws, sw, k, x);
    }
    forall sw | sw in sws ensures Effect(w, sw, k, Effects(w, sws, k, x)) == Effects(w, sws, k, x) {
      EffectsSettle(w, sws, sw, k, x);
    }
  }

  /** Mild for a task is mild for the task at any place. */
  lemma MildAtSlot(w: World, all: seq<Sweep>, j: nat, x: Value, y: Value)
    requires Mild(w, all, TaskKind, x, y)
    ensures Mild(w, all, SlotKind(j), x, y)
  {
    SlotForgets(w, all, all, j, x);
    SlotForgets(w, all, all, j, y);
    SlotAbsorbs(w, all, all, j, x);
    forall sw | Effect(w, sw, SlotKind(j), x) == x ensures Effect(w, sw, SlotKind(j), y) == y {
      var same := Sweep([], Everywhere(AimAt(w, sw, SlotKind(j)).rest));
      assert AimAt(w, sw, SlotKind(j)).hit ==> Effect(w, same, TaskKind, x) == x && Effect(w, same, TaskKind, y) == Effect(w, sw, SlotKind(j), y);
    }
  }

  /** So an element changes mildly in its seat. */
  lemma MildInSeat(w: World, all: seq<Sweep>, h: Heap, h': Heap, k: Kind, e: Elem)
    requires GentleHeap(w, all, h, h') && ElemOk(w, h, e) && InSeat(k, e)
    ensures ElemOk(w, h', e) && Mild(w, all, k, Content(h, e), Content(h', e))
  {
    if k.SlotKind? {
      MildAtSlot(w, all, k.slot, Content(h, e), Content(h', e));
    }
  }

  lemma MildTrans(w: World, all: seq<Sweep>, k: Kind, x: Value, y: Value, z: Value)
    requires Mild(w, all, k, x, y) && Mild(w, all, k, y, z)
    ensures Mild(w, all, k, x, z)
  {
  }

  lemma MildKeepsFixed(w: World, all: seq<Sweep>, sws: seq<Sweep>, k: Kind, x: Value, y: Value)
    requires Mild(w, all, k, x, y) && FixedBy(w, sws, k, x)
    ensures FixedBy(w, sws, k, y)
  {
  }

  lemma GentleHeapRefl(w: World, all: seq<Sweep>, h: Heap)
    ensures GentleHeap(w, all, h, h)
  {
  }

  lemma GentleHeapTrans(w: World, all: seq<Sweep>, f: Heap, g: Heap, h: Heap)
    requires GentleHeap(w, all, f, g) && GentleHeap(w, all, g, h)
    ensures GentleHeap(w, all, f, h)
  {
    forall e | ElemOk(w, f, e) ensures Mild(w, all, e.owner.kind, Content(f, e), Content(h, e)) {
      assert ElemOk(w, g, e);
      MildTrans(w, all, e.owner.kind, Content(f, e), Content(g, e), Content(h, e));
    }
  }

  lemma GentleRefl(w: World, all: seq<Sweep>, st: Store)
    ensures Gentle(w, all, st, st)
  {
  }

  lemma GentleTrans(w: World, all: seq<Sweep>, r: Store, s: Store, t: Store)
    requires Gentle(w, all, r, s) && Gentle(w, all, s, t)
    ensures Gentle(w, all, r, t)
  {
    GentleHeapTrans(w, all, r.heap, s.heap, t.heap);
    forall a | a in r.arrays ensures GentleArray(w, all, r.heap, r.arrays[a], t.heap, t.arrays[a]) {
      assert GentleArray(w, all, r.heap, r.arrays[a], s.heap, s.arrays[a]);
      assert GentleArray(w, all, s.heap, s.arrays[a], t.heap, t.arrays[a]);
      forall j | 0 <= j < |r.arrays[a]|
        ensures Mild(w, all, SlotKind(j), Content(r.heap, r.arrays[a][j]), Content(t.heap, t.arrays[a][j]))
      {
        MildTrans(w, all, SlotKind(j), Content(r.heap, r.arrays[a][j]), Content(s.heap, s.arrays[a][j]), Content(t.heap, t.arrays[a][j]));
      }
    }
  }

  // ----- clearing one value in place -----

  /** What a sweep does to the objects of the value it clears. */
  function TouchHeap(w: World, sw: Sweep, k: Kind, h: Heap, e: Elem): Heap {
    var aim := AimAt(w, sw, k);
    if !aim.hit || e.owner !in h then h
    else h[e.owner := ClearObjects(TypeOf(w, k), e.cell, aim.rest, h[e.owner])]
  }

  /** What it leaves of the by-value part. */
  function TouchElem(w: World, sw: Sweep, k: Kind, e: Elem): Elem {
    var aim := AimAt(w, sw, k);
    e.(cell := TouchCell(aim.hit, TypeOf(w, k), e.cell, aim.rest))
  }

  lemma TouchShowsEffect(w: World, sw: Sweep, k: Kind, h: Heap, e: Elem)
    requires ElemOk(w, h, e) && HeapOk(w, h) && InSeat(k, e)
    ensures HeapOk(w, TouchHeap(w, sw, k, h, e)) && ElemOk(w, TouchHeap(w, sw, k, h, e), TouchElem(w, sw, k, e))
    ensures Content(TouchHeap(w, sw, k, h, e), TouchElem(w, sw, k, e)) == Effect(w, sw, k, Content(h, e))
  {
    var aim, ty := AimAt(w, sw, k), TypeOf(w, k);
    TouchFits(aim.hit, ty, e.cell, aim.rest);
    if aim.hit {
      var m := h[e.owner];
      ClearObjectsTyped(ty, e.cell, aim.rest, m);
      ClearedHere(ty, e.cell, aim.rest, m);
      TouchInPlace(aim.hit, ty, e.cell, aim.rest, [], m, ClearObjects(ty, e.cell, aim.rest, m));
    }
  }

  lemma {:induction false} EffectsTyped(w: World, sws: seq<Sweep>, k: Kind, x: Value)
    requires HasType(x, TypeOf(w, k))
    ensures HasType(Effects(w, sws, k, x), TypeOf(w, k))
    decreases |sws|
  {
    if sws != [] {
      TouchTyped(AimAt(w, sws[0], k).hit, TypeOf(w, k), x, AimAt(w, sws[0], k).rest);
      EffectsTyped(w, sws[1..], k, Effect(w, sws[0], k, x));
    }
  }

  /** What others see of a clearing commutes with every sweep. */
  lemma {:induction false} BeyondSwaps(w: World, sws: seq<Sweep>, k: Kind, c: Cell, rest: Path, x: Value)
    ensures Effects(w, sws, k, Beyond(TypeOf(w, k), c, rest, x)) == Beyond(TypeOf(w, k), c, rest, Effects(w, sws, k, x))
    decreases |sws|
  {
    if sws != [] {
      BeyondCommutesTouch(TypeOf(w, k), c, rest, x, AimAt(w, sws[0], k).hit, AimAt(w, sws[0], k).rest);
      BeyondSwaps(w, sws[1..], k, c, rest, Effect(w, sws[0], k, x));
    }
  }

  /** A tame sweep shows nothing to others where nothing is left to do. */
  lemma NothingBeyond(w: World, all: seq<Sweep>, before: seq<Sweep>, sw: Sweep, k: Kind, kind: Kind, c: Cell, x: Value)
    requires sw in all && Tame(w, all, before, sw) && AimAt(w, sw, k).hit && Fits(TypeOf(w, k), c) && CutBy(w, before, k, c)
    requires kind == k || (k.SlotKind? && kind.TaskKind?)
    requires HasType(x, TypeOf(w, kind)) && FixedBy(w, all, kind, x)
    ensures Beyond(TypeOf(w, k), c, AimAt(w, sw, k).rest, x) == x
  {
    var aim, ty := AimAt(w, sw, k), TypeOf(w, k);
    if kind.TaskKind? && sw.task.Only? {
      forall e | e in Wide(all) ensures Touch(true, ty, x, e) == x {
        var s :| s in all && s.task.Everywhere? && s.task.rest == e;
        assert Effect(w, s, kind, x) == x;
      }
      ShallowSpares(ty, Wide(all), ClearedAt(w, before, k.slot), c, aim.rest, x);
    } else {
      assert AimAt(w, sw, kind) == aim && Effect(w, sw, kind, x) == x;
      if aim.rest != [] {
        BeyondCleared(ty, c, aim.rest, x);
      }
    }
  }

  lemma BeyondIsMild(w: World, all: seq<Sweep>, before: seq<Sweep>, sw: Sweep, k: Kind, kind: Kind, c: Cell, x: Value)
    requires sw in all && Tame(w, all, before, sw) && AimAt(w, sw, k).hit && Fits(TypeOf(w, k), c) && CutBy(w, before, k, c)
    requires kind == k || (k.SlotKind? && kind.TaskKind?)
    requires HasType(x, TypeOf(w, kind))
    ensures Mild(w, all, kind, x, Beyond(TypeOf(w, k), c, AimAt(w, sw, k).rest, x))
  {
    var rest, ty := AimAt(w, sw, k).rest, TypeOf(w, k);
    var done := Effects(w, all, kind, x);
    EffectsTyped(w, all, kind, x);
    EffectsAbsorb(w, all, all, kind, x);
    FixedOfEffects(w, all, kind, done);
    NothingBeyond(w, all, before, sw, k, kind, c, done);
    BeyondSwaps(w, all, kind, c, rest, x);
    forall s | Effect(w, s, kind, x) == x ensures Effect(w, s, kind, Beyond(ty, c, rest, x)) == Beyond(ty, c, rest, x) {
      BeyondCommutesTouch(ty, c, rest, x, AimAt(w, s, kind).hit, AimAt(w, s, kind).rest);
    }
  }

  /** Any other by-value part that shares the objects changes mildly. */
  lemma TouchIsMild(w: World, all: seq<Sweep>, before: seq<Sweep>, sw: Sweep, k: Kind, h: Heap, e: Elem, u: Elem)
    requires sw in all && Tame(w, all, before, sw) && CutBy(w, before, k, e.cell)
    requires ElemOk(w, h, e) && ElemOk(w, h, u) && HeapOk(w, h) && InSeat(k, e)
    ensures Mild(w, all, u.owner.kind, Content(h, u), Content(TouchHeap(w, sw, k, h, e), u))
  {
    var aim, ty := AimAt(w, sw, k), TypeOf(w, k);
    if aim.hit && u.owner == e.owner {
      var m := h[e.owner];
      ClearedHere(ty, e.cell, aim.rest, m);
      SharedClear(ty, u.cell, e.cell, aim.rest, [], m, ClearObjects(ty, e.cell, aim.rest, m));
      LoadTyped(ty, u.cell, m);
      BeyondIsMild(w, all, before, sw, k, u.owner.kind, e.cell, Content(h, u));
    }
  }

  lemma TouchIsGentle(w: World, all: seq<Sweep>, before: seq<Sweep>, sw: Sweep, k: Kind, h: Heap, e: Elem)
    requires sw in all && Tame(w, all, before, sw) && CutBy(w, before, k, e.cell)
    requires ElemOk(w, h, e) && HeapOk(w, h) && InSeat(k, e)
    ensures GentleHeap(w, all, h, TouchHeap(w, sw, k, h, e))
  {
    forall u | ElemOk(w, h, u) ensures Mild(w, all, u.owner.kind, Content(h, u), Content(TouchHeap(w, sw, k, h, e), u)) {
      TouchIsMild(w, all, before, sw, k, h, e, u);
    }
  }

  // ----- several sweeps, several values -----

  function HeapAfter(w: World, sws: seq<Sweep>, k: Kind, h: Heap, e: Elem): Heap
    decreases |sws|
  {
    if sws == [] then h else HeapAfter(w, sws[1..], k, TouchHeap(w, sws[0], k, h, e), TouchElem(w, sws[0], k, e))
  }

  function ElemAfter(w: World, sws: seq<Sweep>, k: Kind, e: Elem): Elem
    decreases |sws|
  {
    if sws == [] then e else ElemAfter(w, sws[1..], k, TouchElem(w, sws[0], k, e))
  }

  lemma AfterOne(w: World, sw: Sweep, k: Kind, h: Heap, e: Elem)
    ensures HeapAfter(w, [sw], k, h, e) == TouchHeap(w, sw, k, h, e)
    ensures ElemAfter(w, [sw], k, e) == TouchElem(w, sw, k, e)
  {
    assert [sw][1..] == [];
  }

  ghost predicate AllTame(w: World, all: seq<Sweep>, before: seq<Sweep>, sws: seq<Sweep>) {
    forall sw | sw in sws :: sw in all && Tame(w, all, before, sw)
  }

  /** A by-value part stays cleared of the sweeps before, and is cleared of one more. */
  lemma TouchKeepsCut(w: World, before: seq<Sweep>, sw: Sweep, k: Kind, c: Cell)
    requires Fits(TypeOf(w, k), c) && CutBy(w, before, k, c)
    ensures CutBy(w, before + [sw], k, TouchCell(AimAt(w, sw, k).hit, TypeOf(w, k), c, AimAt(w, sw, k).rest))
  {
    if k.SlotKind? {
      var aim := AimAt(w, sw, k);
      var d := TouchCell(aim.hit, w.taskT, c, aim.rest);
      forall e | e in ClearedAt(w, before + [sw], k.slot) ensures TouchCell(true, w.taskT, d, e) == d {
        var s :| s in before + [sw] && AimAt(w, s, k).hit && AimAt(w, s, k).rest == e;
        assert s in before ==> e in ClearedAt(w, before, k.slot);
        CutStays(w.taskT, c, aim.hit, aim.rest, e);
      }
    }
  }

  lemma FewerCut(w: World, before: seq<Sweep>, sw: Sweep, k: Kind, c: Cell)
    requires CutBy(w, before + [sw], k, c)
    ensures CutBy(w, before, k, c)
  {
    if k.SlotKind? {
      assert forall s | s in before :: s in before + [sw];
      assert ClearedAt(w, before, k.slot) <= ClearedAt(w, before + [sw], k.slot);
    }
  }

  /** The value shows the effect of all the sweeps, and all else changes mildly. */
  lemma {:induction false} AfterShowsEffects(w: World, all: seq<Sweep>, before: seq<Sweep>, sws: seq<Sweep>, k: Kind, h: Heap, e: Elem)
    requires AllTame(w, all, before, sws) && CutBy(w, before, k, e.cell) && ElemOk(w, h, e) && HeapOk(w, h) && InSeat(k, e)
    ensures var h', e' := HeapAfter(w, sws, k, h, e), ElemAfter(w, sws, k, e);
            && HeapOk(w, h') && ElemOk(w, h', e') && e'.owner == e.owner
            && Content(h', e') == Effects(w, sws, k, Content(h, e))
            && GentleHeap(w, all, h, h')
    decreases |sws|
  {
    if sws != [] {
      var sw, rest := sws[0], sws[1..];
      var mid, d := TouchHeap(w, sw, k, h, e), TouchElem(w, sw, k, e);
      TouchShowsEffect(w, sw, k, h, e);
      TouchIsGentle(w, all, before, sw, k, h, e);
      TouchKeepsCut(w, before, sw, k, e.cell);
      FewerCut(w, before, sw, k, d.cell);
      AfterShowsEffects(w, all, before, rest, k, mid, d);
      GentleHeapTrans(w, all, h, mid, HeapAfter(w, sws, k, h, e));
    } else {
      GentleHeapRefl(w, all, h);
    }
  }

  /** The objects after the first `n` of several values have been swept in turn. */
  function SweepHeap(w: World, sws: seq<Sweep>, lead: bool, h: Heap, es: seq<Elem>, n: nat): Heap
    requires n <= |es|
  {
    if n == 0 then h
    else HeapAfter(w, sws, Seat(lead, n - 1), SweepHeap(w, sws, lead, h, es, n - 1), es[n - 1])
  }

  function SweepElems(w: World, sws: seq<Sweep>, lead: bool, es: seq<Elem>): seq<Elem> {
    seq(|es|, i requires 0 <= i < |es| => ElemAfter(w, sws, Seat(lead, i), es[i]))
  }

  /** Every value of `es` up to `n` has changed mildly, and the sweeps have nothing left to
      do there. */
  ghost predicate Swept(w: World, all: seq<Sweep>, sws: seq<Sweep>, lead: bool, h: Heap, es: seq<Elem>, h': Heap, n: nat)
    requires n <= |es|
  {
    forall i | 0 <= i < n :: SweptOne(w, all, sws, Seat(lead, i), h, es[i], h', SweepElems(w, sws, lead, es)[i])
  }

  ghost predicate SweptOne(w: World, all: seq<Sweep>, sws: seq<Sweep>, k: Kind, h: Heap, e: Elem, h': Heap, e': Elem) {
    && ElemOk(w, h', e') && InSeat(k, e')
    && Mild(w, all, k, Content(h, e), Content(h', e')) && FixedBy(w, sws, k, Content(h', e'))
  }

  /** That stays so while other values are swept. */
  lemma SweptOneStays(w: World, all: seq<Sweep>, sws: seq<Sweep>, k: Kind, h: Heap, e: Elem, mid: Heap, e': Elem, h': Heap)
    requires SweptOne(w, all, sws, k, h, e, mid, e') && GentleHeap(w, all, mid, h')
    ensures SweptOne(w, all, sws, k, h, e, h', e')
  {
    MildInSeat(w, all, mid, h', k, e');
    MildTrans(w, all, k, Content(h, e), Content(mid, e'), Content(h', e'));
    MildKeepsFixed(w, all, sws, k, Content(mid, e'), Content(h', e'));
  }

  lemma SweptStays(w: World, all: seq<Sweep>, sws: seq<Sweep>, lead: bool, h: Heap, es: seq<Elem>, mid: Heap, h': Heap, n: nat)
    requires n <= |es| && Swept(w, all, sws, lead, h, es, mid, n) && GentleHeap(w, all, mid, h')
    ensures Swept(w, all, sws, lead, h, es, h', n)
  {
    forall i | 0 <= i < n ensures SweptOne(w, all, sws, Seat(lead, i), h, es[i], h', SweepElems(w, sws, lead, es)[i]) {
      SweptOneStays(w, all, sws, Seat(lead, i), h, es[i], mid, SweepElems(w, sws, lead, es)[i], h');
    }
  }

  /** Sweeping a value that others may have been swept before. */
  lemma SweepOne(w: World, all: seq<Sweep>, before: seq<Sweep>, sws: seq<Sweep>, k: Kind, h: Heap, mid: Heap, e: Elem)
    requires AllTame(w, all, before, sws) && CutBy(w, before, k, e.cell)
    requires HeapOk(w, mid) && GentleHeap(w, all, h, mid) && ElemOk(w, h, e) && InSeat(k, e)
    ensures var h' := HeapAfter(w, sws, k, mid, e);
            && HeapOk(w, h') && GentleHeap(w, all, mid, h')
            && SweptOne(w, all, sws, k, h, e, h', ElemAfter(w, sws, k, e))
  {
    MildInSeat(w, all, h, mid, k, e);
    AfterShowsEffects(w, all, before, sws, k, mid, e);
    SweepIsMild(w, all, sws, k, Content(mid, e));
    MildTrans(w, all, k, Content(h, e), Content(mid, e), Effects(w, sws, k, Content(mid, e)));
  }

  /** Values that sweeps have cleared. */
  ghost predicate AllCut(w: World, before: seq<Sweep>, lead: bool, es: seq<Elem>) {
    forall i | 0 <= i < |es| :: CutBy(w, before, Seat(lead, i), es[i].cell)
  }

  /** `h'` is memory after the first `n` values have been swept. */
  ghost predicate SweepDone(w: World, all: seq<Sweep>, sws: seq<Sweep>, lead: bool, h: Heap, es: seq<Elem>, h': Heap, n: nat)
    requires n <= |es|
  {
    HeapOk(w, h') && GentleHeap(w, all, h, h') && Swept(w, all, sws, lead, h, es, h', n)
  }

  lemma {:induction false} SweepShows(w: World, all: seq<Sweep>, before: seq<Sweep>, sws: seq<Sweep>, lead: bool, h: Heap, es: seq<Elem>, n: nat)
    requires AllTame(w, all, before, sws) && AllCut(w, before, lead, es)
    requires HeapOk(w, h) && ElemsOk(w, lead, h, es) && n <= |es|
    ensures SweepDone(w, all, sws, lead, h, es, SweepHeap(w, sws, lead, h, es, n), n)
  {
    if n == 0 {
      GentleHeapRefl(w, all, h);
    } else {
      SweepShows(w, all, before, sws, lead, h, es, n - 1);
      SweepNext(w, all, before, sws, lead, h, es, SweepHeap(w, sws, lead, h, es, n - 1), n);
    }
  }

  lemma SweepNext(w: World, all: seq<Sweep>, before: seq<Sweep>, sws: seq<Sweep>, lead: bool, h: Heap, es: seq<Elem>, mid: Heap, n: nat)
    requires AllTame(w, all, before, sws) && AllCut(w, before, lead, es)
    requires 0 < n <= |es| && SweepDone(w, all, sws, lead, h, es, mid, n - 1) && ElemsOk(w, lead, h, es)
    ensures SweepDone(w, all, sws, lead, h, es, HeapAfter(w, sws, Seat(lead, n - 1), mid, es[n - 1]), n)
  {
    var h' := HeapAfter(w, sws, Seat(lead, n - 1), mid, es[n - 1]);
    SweepOne(w, all, before, sws, Seat(lead, n - 1), h, mid, es[n - 1]);
    SweptOneMore(w, all, sws, lead, h, es, mid, h', n);
    GentleHeapTrans(w, all, h, mid, h');
  }

  lemma SweptOneMore(w: World, all: seq<Sweep>, sws: seq<Sweep>, lead: bool, h: Heap, es: seq<Elem>, mid: Heap, h': Heap, n: nat)
    requires 0 < n <= |es| && Swept(w, all, sws, lead, h, es, mid, n - 1) && GentleHeap(w, all, mid, h')
    requires SweptOne(w, all, sws, Seat(lead, n - 1), h, es[n - 1], h', ElemAfter(w, sws, Seat(lead, n - 1), es[n - 1]))
    ensures Swept(w, all, sws, lead, h, es, h', n)
  {
    SweptStays(w, all, sws, lead, h, es, mid, h', n - 1);
    assert SweepElems(w, sws, lead, es)[n - 1] == ElemAfter(w, sws, Seat(lead, n - 1), es[n - 1]);
  }

  // ----- the tasks of a slice -----

  function SweepTasks(w: World, sws: seq<Sweep>, st: Store, a: nat): Store
    requires a in st.arrays
  {
    var es := st.arrays[a];
    Store(SweepHeap(w, sws, false, st.heap, es, |es|), st.arrays[a := SweepElems(w, sws, false, es)])
  }

  /** After one more sweep, the tasks are cleared of it, too. */
  lemma SweepCuts(w: World, before: seq<Sweep>, sw: Sweep, h: Heap, es: seq<Elem>)
    requires AllCut(w, before, false, es) && ElemsOk(w, false, h, es)
    ensures AllCut(w, before + [sw], false, SweepElems(w, [sw], false, es))
  {
    forall i | 0 <= i < |es| ensures CutBy(w, before + [sw], Seat(false, i), SweepElems(w, [sw], false, es)[i].cell) {
      assert ElemOk(w, h, es[i]) && InSeat(Seat(false, i), es[i]) && CutBy(w, before, Seat(false, i), es[i].cell);
      AfterOne(w, sw, SlotKind(i), h, es[i]);
      TouchKeepsCut(w, before, sw, SlotKind(i), es[i].cell);
    }
  }

  lemma SweepTasksShows(w: World, all: seq<Sweep>, before: seq<Sweep>, sws: seq<Sweep>, st: Store, a: nat)
    requires AllTame(w, all, before, sws) && StoreOk(w, st) && a in st.arrays && AllCut(w, before, false, st.arrays[a])
    ensures var st' := SweepTasks(w, sws, st, a);
            && StoreOk(w, st') && Gentle(w, all, st, st')
            && Swept(w, all, sws, false, st.heap, st.arrays[a], st'.heap, |st.arrays[a]|)
  {
    var st', es := SweepTasks(w, sws, st, a), st.arrays[a];
    SweepShows(w, all, before, sws, false, st.heap, es, |es|);
    forall b | b in st.arrays
      ensures GentleArray(w, all, st.heap, st.arrays[b], st'.heap, st'.arrays[b])
      ensures ElemsOk(w, false, st'.heap, st'.arrays[b])
    {
      forall j | 0 <= j < |st.arrays[b]|
        ensures ElemOk(w, st'.heap, st'.arrays[b][j]) && InSeat(SlotKind(j), st'.arrays[b][j])
        ensures Mild(w, all, SlotKind(j), Content(st.heap, st.arrays[b][j]), Content(st'.heap, st'.arrays[b][j]))
      {
        if b == a {
          assert SweptOne(w, all, sws, Seat(false, j), st.heap, es[j], st'.heap, SweepElems(w, sws, false, es)[j]);
        } else {
          MildInSeat(w, all, st.heap, st'.heap, SlotKind(j), st.arrays[b][j]);
        }
      }
    }
  }

  /** Objects change, the arrays do not. */
  lemma HeapIsGentle(w: World, all: seq<Sweep>, st: Store, h: Heap)
    requires StoreOk(w, st) && HeapOk(w, h) && GentleHeap(w, all, st.heap, h)
    ensures Gentle(w, all, st, st.(heap := h)) && StoreOk(w, st.(heap := h))
  {
    forall a | a in st.arrays
      ensures GentleArray(w, all, st.heap, st.arrays[a], h, st.arrays[a]) && ElemsOk(w, false, h, st.arrays[a])
    {
      forall j | 0 <= j < |st.arrays[a]|
        ensures ElemOk(w, h, st.arrays[a][j])
        ensures Mild(w, all, SlotKind(j), Content(st.heap, st.arrays[a][j]), Content(h, st.arrays[a][j]))
      {
        MildInSeat(w, all, st.heap, h, SlotKind(j), st.arrays[a][j]);
      }
    }
  }

  // ----- the code -----

  /** Clear several paths from one value. */
  method TouchBy(w: World, sws: seq<Sweep>, k: Kind, h: Heap, e: Elem) returns (h': Heap, e': Elem)
    ensures h' == HeapAfter(w, sws, k, h, e) && e' == ElemAfter(w, sws, k, e)
  {
    h', e' := h, e;
    for i := 0 to |sws|
      invariant HeapAfter(w, sws[i..], k, h', e') == HeapAfter(w, sws, k, h, e)
      invariant ElemAfter(w, sws[i..], k, e') == ElemAfter(w, sws, k, e)
    {
      assert sws[i..][1..] == sws[i + 1..];
      h', e' := TouchHeap(w, sws[i], k, h', e'), TouchElem(w, sws[i], k, e');
    }
  }

  /** Clear paths from every element: the loop of sanitizeTasks, and the loop of
      clearRecursive over the tasks. */
  method SweepArray(w: World, sws: seq<Sweep>, st: Store, a: nat) returns (st': Store)
    requires a in st.arrays
    ensures st' == SweepTasks(w, sws, st, a)
  {
    var h, es := st.heap, st.arrays[a];
    ghost var was, swept := es, SweepElems(w, sws, false, es);
    for j := 0 to |es|
      invariant |es| == |was| && h == SweepHeap(w, sws, false, st.heap, was, j)
      invariant forall i | 0 <= i < |es| :: es[i] == if i < j then swept[i] else was[i]
    {
      var e;
      h, e := TouchBy(w, sws, SlotKind(j), h, es[j]);
      es := es[j := e];
    }
    assert es == swept;
    st' := Store(h, st.arrays[a := es]);
  }
}
