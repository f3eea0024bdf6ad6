/** Sensitive paths that name a task by its number, on one type: one that is not harmless,
    one that it becomes harmless next to, and two of which the order matters. */
module NumberedPaths {
  import opened Text
  import opened PathSyntax
  import opened Values
  import opened Shallow
  import opened Snapshots
  import opened SnapshotClear
  import opened Inspector
  import opened Polling
  import opened HarmfulRuns

  // ----- the configurations -----

  function Plain(name: string, ty: Type): Field {
    Field(name, "", true, false, ty)
  }

  const SPEC := StructT([Plain("Env", PrimT(""))])
  const TASK := StructT([Plain("Spec", PtrT(SPEC))])
  const LEAD := [Plain("Networks", PrimT("")), Plain("Nodes", PrimT("")), Plain("Services", PrimT(""))]
  const WORLD := World(LEAD, Plain("Tasks", SliceT(TASK)), TASK)

  // A variable behind a reference of the first task, the reference, the variable of every task.

  const VARIABLE: Path := ["Tasks", "0", "Spec", "Env"]
  const REFERENCE: Path := ["Tasks", "0", "Spec"]
  const EVERY: Path := ["Tasks", "*", "Spec", "Env"]

  function Clearing(paths: seq<Path>): Config {
    Config(WORLD, Sanitize.Config(false, false, false, false, []), paths, [])
  }

  lemma PathAims()
    ensures PathSweep(WORLD, VARIABLE) == Sweep(VARIABLE, Only(0, ["Spec", "Env"]))
    ensures PathSweep(WORLD, REFERENCE) == Sweep(REFERENCE, Only(0, ["Spec"]))
    ensures PathSweep(WORLD, EVERY) == Sweep(EVERY, Everywhere(["Spec", "Env"]))
  {
    var fs := WORLD.Fields();
    assert fs == LEAD + [WORLD.tasksField] && |fs| == 4;
    assert FindField(fs, "Tasks") == Some(3) by {
      assert !Named(fs[0], "Tasks") && !Named(fs[1], "Tasks") && !Named(fs[2], "Tasks") && Named(fs[3], "Tasks");
    }
    assert Decimal("0") == 10 * Decimal("0"[..0]) + 0 && "0"[..0] == "";
    assert Atoi("0") == Some(0);
    assert VARIABLE[2..] == ["Spec", "Env"] && REFERENCE[2..] == ["Spec"] && EVERY[2..] == ["Spec", "Env"];
  }

  lemma TwoSweeps(p: Path, q: Path)
    ensures Clearing([p, q]).Sweeps() == [PathSweep(WORLD, p), PathSweep(WORLD, q)]
    ensures [] + PathSweeps(WORLD, [p, q][..0]) == [] && [] + PathSweeps(WORLD, [p, q][..1]) == [PathSweep(WORLD, p)]
  {
    assert [p, q][..1] == [p] && HideSweeps([]) == [];
    assert PathSweeps(WORLD, [p, q]) == [PathSweep(WORLD, p), PathSweep(WORLD, q)];
  }

  // ----- what is shallow here -----

  /** The path goes behind the pointer. */
  lemma GoesBehind()
    ensures !IsShallow(TASK, {}, {}, ["Spec", "Env"])
  {
    var p: Path := ["Spec", "Env"];
    assert p[1..] == ["Env"] && ["Env"][1..] == [];
    assert FieldHit(TASK.fields, "Spec", 0) && FieldHit(SPEC.fields, "Env", 0);
    assert !Quiet(PrimT(""), InField(SPEC.fields, InField(TASK.fields, {}, 0), 0), []);
    assert !Quiet(PtrT(SPEC), InField(TASK.fields, {}, 0), ["Env"]);
  }

  /** But not once the pointer is gone. */
  lemma NothingBehind(cs: set<Path>)
    requires ["Spec"] in cs
    ensures IsShallow(TASK, {}, cs, ["Spec", "Env"])
  {
    var p, cut: Path := ["Spec", "Env"], ["Spec"];
    assert cut[1..] == [];
    forall i | 0 <= i < 1 && FieldHit(TASK.fields, p[0], i)
      ensures IsShallow(TASK.fields[i].ty, InField(TASK.fields, {}, i), InField(TASK.fields, cs, i), p[1..])
    {
      assert cut[1..] in InField(TASK.fields, cs, i);
    }
  }

  /** And there is nothing to change where every task is cleared of the variable. */
  lemma NothingLeft(es: set<Path>, cs: set<Path>)
    requires ["Spec", "Env"] in es
    ensures IsShallow(TASK, es, cs, ["Spec", "Env"])
  {
    var p: Path := ["Spec", "Env"];
    assert p[1..] == ["Env"] && ["Env"][1..] == [];
    forall i | 0 <= i < 1 && FieldHit(TASK.fields, p[0], i)
      ensures IsShallow(TASK.fields[i].ty, InField(TASK.fields, es, i), InField(TASK.fields, cs, i), p[1..])
    {
      assert p[1..] in InField(TASK.fields, es, i);
      assert ["Env"][1..] in InField(SPEC.fields, InField(TASK.fields, es, i), 0);
      assert Quiet(PtrT(SPEC), InField(TASK.fields, es, i), ["Env"]);
    }
  }

  // ----- what follows for runs -----

  /** A run with the path alone misses a change. */
  lemma NumberHidesChange() returns (states: seq<State>, ticks: seq<Tick>)
    ensures var c := Clearing([VARIABLE]);
            && IsPolling(c, states, ticks) && |ticks| == 3 && ticks[2].marshals
            && News(c, states[2], ticks[2], states[3]) && states[3].sent == states[2].sent
  {
    var c := Clearing([VARIABLE]);
    PathAims();
    GoesBehind();
    assert c.Sweeps() == [PathSweep(WORLD, VARIABLE)] && [] + PathSweeps(WORLD, c.paths[..0]) == [];
    assert Wide(c.Sweeps()) == {} && ClearedAt(WORLD, [], 0) == {};
    assert !HarmlessAmong(WORLD, c.Sweeps(), [] + PathSweeps(WORLD, c.paths[..0]), c.paths[0]);
    var m;
    states, ticks, m := HarmfulRun(c);
  }

  /** No run does, if the variable of every task is cleared as well. */
  lemma EveryTaskCovers()
    ensures NeverMisses(Clearing([VARIABLE, EVERY]))
  {
    var c := Clearing([VARIABLE, EVERY]);
    PathAims();
    TwoSweeps(VARIABLE, EVERY);
    assert PathSweep(WORLD, EVERY) in c.Sweeps();
    assert ["Spec", "Env"] in Wide(c.Sweeps());
    NothingLeft(Wide(c.Sweeps()), ClearedAt(WORLD, [], 0));
    assert HarmlessAmong(WORLD, c.Sweeps(), [], VARIABLE);
    PublishedExactlyIfHarmless(c);
  }

  /** And none does if the pointer is cleared first, but some do if it is cleared next,
      though what is shown is the same. */
  lemma OrderMatters()
    ensures NeverMisses(Clearing([REFERENCE, VARIABLE])) && !NeverMisses(Clearing([VARIABLE, REFERENCE]))
  {
    PathAims();
    PointerFirst();
    PathFirst();
    PublishedExactlyIfHarmless(Clearing([REFERENCE, VARIABLE]));
    PublishedExactlyIfHarmless(Clearing([VARIABLE, REFERENCE]));
  }

  lemma PointerFirst()
    ensures Clearing([REFERENCE, VARIABLE]).Ok()
  {
    var c := Clearing([REFERENCE, VARIABLE]);
    PathAims();
    TwoSweeps(REFERENCE, VARIABLE);
    var before := [PathSweep(WORLD, REFERENCE)];
    assert Wide(c.Sweeps()) == {};
    assert AimAt(WORLD, before[0], SlotKind(0)) == Aim(true, ["Spec"]);
    assert ["Spec"] in ClearedAt(WORLD, before, 0);
    NothingBehind(ClearedAt(WORLD, before, 0));
    assert HarmlessAmong(WORLD, c.Sweeps(), before, VARIABLE);
    var p: Path := ["Spec"];
    assert p[1..] == [];
    assert HarmlessAmong(WORLD, c.Sweeps(), [], REFERENCE);
  }

  lemma PathFirst()
    ensures !Clearing([VARIABLE, REFERENCE]).Ok()
  {
    var c := Clearing([VARIABLE, REFERENCE]);
    PathAims();
    TwoSweeps(VARIABLE, REFERENCE);
    GoesBehind();
    assert Wide(c.Sweeps()) == {} && ClearedAt(WORLD, [], 0) == {};
    assert !HarmlessAmong(WORLD, c.Sweeps(), [] + PathSweeps(WORLD, c.paths[..0]), c.paths[0]);
  }
}
