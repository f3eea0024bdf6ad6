/** internal.clearRecursive as it runs: its error returns, the writes reflection
    refuses, and the code itself, proved to compute `PathClear.Clear`. */
module PathWalk {
  import opened Text
  import opened PathSyntax
  import opened Values
  import opened PathClear

  // ----- error returns -----

  /** The part selects nothing at a place where selecting nothing is an error, or
      the path runs on into something that has no parts. A failure below a
      wildcard is not reported. */
  predicate Fails(ty: Type, v: Value, parts: Path)
    decreases ty, 1
  {
    if parts == [] then false
    else if ty.PtrT? then v.Ptr? && FailsIn(ty.elem, v.pointee, parts)
    else FailsIn(ty, v, parts)
  }

  predicate FailsIn(ty: Type, v: Value, parts: Path)
    requires parts != []
    decreases ty, 0
  {
    match ty
    case StructT(fs) =>
      v.Struct? && |v.fields| == |fs| && parts[0] != WILDCARD &&
      var at := FindField(fs, parts[0]);
      at.None? || Fails(fs[at.value].ty, v.fields[at.value], parts[1..])
    case MapT(e) =>
      v.Map? && parts[0] != WILDCARD && parts[0] in v.entries && Fails(e, v.entries[parts[0]], parts[1..])
    case SliceT(e) => FailsElem(e, v, parts)
    case ArrayT(_, e) => FailsElem(e, v, parts)
    case _ => true
  }

  function Elems(v: Value): seq<Value> {
    if v.List? then v.elems else []
  }

  predicate FailsElem(e: Type, v: Value, parts: Path)
    requires parts != []
    decreases e, 3
  {
    parts[0] != WILDCARD &&
    var at := Atoi(parts[0]);
    at.None? || !(0 <= at.value < |Elems(v)|) || Fails(e, Elems(v)[at.value], parts[1..])
  }

  /** An error return means nothing changed. */
  lemma {:induction false} FailureChangesNothing(ty: Type, v: Value, parts: Path)
    requires Fails(ty, v, parts)
    ensures Clear(ty, v, parts) == v
    decreases ty, 1
  {
    if ty.PtrT? {
      FailureChangesNothingIn(ty.elem, v.pointee, parts);
    } else {
      FailureChangesNothingIn(ty, v, parts);
    }
  }

  lemma {:induction false} FailureChangesNothingIn(ty: Type, v: Value, parts: Path)
    requires parts != [] && FailsIn(ty, v, parts)
    ensures ClearIn(ty, v, parts) == v
    decreases ty, 0
  {
    match ty
    case StructT(fs) =>
      var at := FindField(fs, parts[0]);
      if at.Some? {
        FailureChangesNothing(fs[at.value].ty, v.fields[at.value], parts[1..]);
      }
      assert ClearIn(ty, v, parts).fields == v.fields;
    case MapT(e) =>
      FailureChangesNothing(e, v.entries[parts[0]], parts[1..]);
      assert ClearIn(ty, v, parts).entries == v.entries;
    case SliceT(e) => FailureChangesNothingElem(e, v, parts);
    case ArrayT(_, e) => FailureChangesNothingElem(e, v, parts);
    case _ =>
  }

  lemma {:induction false} FailureChangesNothingElem(e: Type, v: Value, parts: Path)
    requires parts != [] && FailsElem(e, v, parts)
    ensures ClearElems(e, v, parts) == v
    decreases e, 3
  {
    if v.List? {
      var at := Atoi(parts[0]);
      if at.Some? && 0 <= at.value < |v.elems| {
        FailureChangesNothing(e, v.elems[at.value], parts[1..]);
      }
      assert ClearElems(e, v, parts).elems == v.elems;
    }
  }

  // ----- refused writes -----

  /** The read-only mark reflection puts on what is reached through an unexported
      field. The one an unexported embedded field leaves goes again at the next field;
      any other stays, as does every mark once an element is taken. */
  datatype Mark = Clean | Embedded | Sticky {
    function Kept(): Mark { if Clean? then Clean else Sticky }
  }

  /** What reflection lets the code do with a value: `addr` for one reached through a
      pointer or a slice, and its mark. Writing needs the first and no mark; replacing
      a map entry needs no mark. */
  datatype Access = Access(addr: bool, mark: Mark) {
    predicate Open() { mark.Clean? }
    predicate Settable() { addr && Open() }
    function Behind(): Access { Access(true, mark) }
    function InSlice(): Access { Access(true, mark.Kept()) }
    function InArray(): Access { Access(addr, mark.Kept()) }
    function InMap(): Access { Access(false, mark.Kept()) }
    function Field(f: Values.Field): Access {
      Access(addr, if mark.Sticky? then Sticky else if f.exported then Clean else if f.embedded then Embedded else Sticky)
    }
  }

  /** A pointer handed to ClearByPath. */
  const TOP := Access(false, Clean)

  predicate Panics(ty: Type, v: Value, parts: Path, a: Access)
    decreases ty, 1
  {
    if parts == [] then false
    else if ty.PtrT? then v.Ptr? && PanicsIn(ty.elem, v.pointee, parts, a.Behind())
    else PanicsIn(ty, v, parts, a)
  }

  predicate PanicsIn(ty: Type, v: Value, parts: Path, a: Access)
    requires parts != []
    decreases ty, 0
  {
    match ty
    case StructT(fs) =>
      v.Struct? && |v.fields| == |fs| && exists i | 0 <= i < |fs| ::
        FieldHit(fs, parts[0], i) && Refused(fs[i].ty, v.fields[i], parts[1..], a.Field(fs[i]), a.Field(fs[i]).Settable())
    case MapT(e) =>
      v.Map? && exists k | k in v.entries ::
        KeyHit(parts[0], k) && Refused(e, v.entries[k], parts[1..], a.InMap(), a.Open())
    case SliceT(e) => PanicsElem(e, v, parts, a.InSlice())
    case ArrayT(_, e) => PanicsElem(e, v, parts, a.InArray())
    case _ => false
  }

  predicate PanicsElem(e: Type, v: Value, parts: Path, a: Access)
    requires parts != []
    decreases e, 3
  {
    exists i | 0 <= i < |Elems(v)| ::
      IndexHit(parts[0], i) && Refused(e, Elems(v)[i], parts[1..], a, a.Settable())
  }

  predicate Refused(ty: Type, v: Value, rest: Path, a: Access, writable: bool)
    decreases ty, 2
  {
    if rest == [] then !writable else Panics(ty, v, rest, a)
  }

  /** Whether every write along the path is accepted, whatever the value: told from
      the type and the path alone. A write is refused at and below an unexported field, which
      only a wildcard reaches, except in the exported fields of an embedded one, and inside a struct or array held in a map by value,
      unless the path leaves it through a pointer, a slice or another map. */
  predicate Permitted(ty: Type, parts: Path, a: Access)
    decreases ty, 1
  {
    parts == [] || (if ty.PtrT? then PermittedIn(ty.elem, parts, a.Behind()) else PermittedIn(ty, parts, a))
  }

  predicate PermittedIn(ty: Type, parts: Path, a: Access)
    requires parts != []
    decreases ty, 0
  {
    match ty
    case StructT(fs) =>
      forall i | 0 <= i < |fs| && FieldHit(fs, parts[0], i) ::
        PermittedChild(fs[i].ty, parts[1..], a.Field(fs[i]), a.Field(fs[i]).Settable())
    case MapT(e) => PermittedChild(e, parts[1..], a.InMap(), a.Open())
    case SliceT(e) => LeastHit(parts[0]).Some? ==> PermittedChild(e, parts[1..], a.InSlice(), a.Open())
    case ArrayT(n, e) =>
      LeastHit(parts[0]).Some? && LeastHit(parts[0]).value < n ==> PermittedChild(e, parts[1..], a.InArray(), a.Settable())
    case _ => true
  }

  predicate PermittedChild(ty: Type, rest: Path, a: Access, writable: bool)
    decreases ty, 2
  {
    if rest == [] then writable else Permitted(ty, rest, a)
  }

  /** On permitted paths every write is accepted. */
  lemma {:induction false} PermittedNeverPanics(ty: Type, v: Value, parts: Path, a: Access)
    requires HasType(v, ty) && Permitted(ty, parts, a)
    ensures !Panics(ty, v, parts, a)
    decreases ty, 1
  {
    if parts != [] {
      if ty.PtrT? {
        if v.Ptr? {
          PermittedNeverPanicsIn(ty.elem, v.pointee, parts, a.Behind());
        }
      } else {
        PermittedNeverPanicsIn(ty, v, parts, a);
      }
    }
  }

  lemma {:induction false} PermittedNeverPanicsIn(ty: Type, v: Value, parts: Path, a: Access)
    requires parts != [] && HasType(v, ty) && PermittedIn(ty, parts, a)
    ensures !PanicsIn(ty, v, parts, a)
    decreases ty, 0
  {
    match ty
    case StructT(fs) =>
      forall i | 0 <= i < |fs| && FieldHit(fs, parts[0], i)
        ensures !Refused(fs[i].ty, v.fields[i], parts[1..], a.Field(fs[i]), a.Field(fs[i]).Settable())
      {
        ChildNeverPanics(fs[i].ty, v.fields[i], parts[1..], a.Field(fs[i]), a.Field(fs[i]).Settable());
      }
    case MapT(e) =>
      if v.Map? {
        forall k | k in v.entries ensures !Refused(e, v.entries[k], parts[1..], a.InMap(), a.Open()) {
          ChildNeverPanics(e, v.entries[k], parts[1..], a.InMap(), a.Open());
        }
      }
    case SliceT(e) =>
      forall i | 0 <= i < |Elems(v)| && IndexHit(parts[0], i) ensures !Refused(e, Elems(v)[i], parts[1..], a.InSlice(), a.Open()) {
        ChildNeverPanics(e, Elems(v)[i], parts[1..], a.InSlice(), a.Open());
      }
    case ArrayT(_, e) =>
      forall i | 0 <= i < |Elems(v)| && IndexHit(parts[0], i) ensures !Refused(e, Elems(v)[i], parts[1..], a.InArray(), a.Settable()) {
        ChildNeverPanics(e, Elems(v)[i], parts[1..], a.InArray(), a.Settable());
      }
    case _ =>
  }

  lemma {:induction false} ChildNeverPanics(ty: Type, v: Value, rest: Path, a: Access, writable: bool)
    requires HasType(v, ty) && PermittedChild(ty, rest, a, writable)
    ensures !Refused(ty, v, rest, a, writable)
    decreases ty, 2
  {
    if rest != [] {
      PermittedNeverPanics(ty, v, rest, a);
    }
  }

  /** A value on which a path that is not permitted makes the code panic. */
  lemma {:induction false} Offender(ty: Type, parts: Path, a: Access) returns (v: Value)
    requires !Permitted(ty, parts, a)
    ensures HasType(v, ty) && Panics(ty, v, parts, a)
    decreases ty, 1
  {
    if ty.PtrT? {
      var x := OffenderIn(ty.elem, parts, a.Behind());
      v := Ptr(x);
    } else {
      v := OffenderIn(ty, parts, a);
    }
  }

  lemma {:induction false} OffenderIn(ty: Type, parts: Path, a: Access) returns (v: Value)
    requires parts != [] && !PermittedIn(ty, parts, a)
    ensures HasType(v, ty) && PanicsIn(ty, v, parts, a)
    decreases ty, 0
  {
    match ty
    case StructT(fs) =>
      var i :| 0 <= i < |fs| && FieldHit(fs, parts[0], i) &&
               !PermittedChild(fs[i].ty, parts[1..], a.Field(fs[i]), a.Field(fs[i]).Settable());
      var x := OffendingChild(fs[i].ty, parts[1..], a.Field(fs[i]), a.Field(fs[i]).Settable());
      forall j | 0 <= j < |fs| ensures HasType(Zero(fs[j].ty), fs[j].ty) {
        ZeroTyped(fs[j].ty);
      }
      v := Struct(seq(|fs|, j requires 0 <= j < |fs| => if j == i then x else Zero(fs[j].ty)));
    case MapT(e) =>
      var x := OffendingChild(e, parts[1..], a.InMap(), a.Open());
      v := Map(map[parts[0] := x]);
      assert KeyHit(parts[0], parts[0]) && parts[0] in v.entries;
    case SliceT(e) =>
      v := OffendingList(e, parts, a.InSlice(), LeastHit(parts[0]).value + 1);
    case ArrayT(n, e) =>
      v := OffendingList(e, parts, a.InArray(), n);
  }

  lemma {:induction false} OffendingList(e: Type, parts: Path, a: Access, n: nat) returns (v: Value)
    requires parts != [] && !PermittedChild(e, parts[1..], a, a.Settable())
    requires LeastHit(parts[0]).Some? && LeastHit(parts[0]).value < n
    ensures v.List? && |v.elems| == n && forall i | 0 <= i < n :: HasType(v.elems[i], e)
    ensures PanicsElem(e, v, parts, a)
    decreases e, 3
  {
    var k := LeastHit(parts[0]).value;
    var x := OffendingChild(e, parts[1..], a, a.Settable());
    ZeroTyped(e);
    v := List(seq(n, j => if j == k then x else Zero(e)));
    assert IndexHit(parts[0], k) && Refused(e, Elems(v)[k], parts[1..], a, a.Settable());
  }

  lemma {:induction false} OffendingChild(ty: Type, rest: Path, a: Access, writable: bool) returns (v: Value)
    requires !PermittedChild(ty, rest, a, writable)
    ensures HasType(v, ty) && Refused(ty, v, rest, a, writable)
    decreases ty, 2
  {
    if rest == [] {
      ZeroTyped(ty);
      v := Zero(ty);
    } else {
      v := Offender(ty, rest, a);
    }
  }

  /** The domain of the code, exactly: a path is permitted on a type if and only if it
      panics on no value of that type. */
  lemma PermittedExactly(ty: Type, parts: Path, a: Access)
    ensures Permitted(ty, parts, a) <==> forall v | HasType(v, ty) :: !Panics(ty, v, parts, a)
  {
    if Permitted(ty, parts, a) {
      forall v | HasType(v, ty) ensures !Panics(ty, v, parts, a) {
        PermittedNeverPanics(ty, v, parts, a);
      }
    } else {
      var v := Offender(ty, parts, a);
      assert HasType(v, ty) && Panics(ty, v, parts, a);
    }
  }

  /** Outside that domain the code can panic: one key deeper than a map that holds
      structs by value. */
  lemma MapOfStructsPanics()
    ensures var secret := Field("Secret", "secret", true, false, PrimT(""));
            var ty := PtrT(MapT(StructT([secret])));
            Panics(ty, Ptr(Map(map["x" := Struct([Prim("s")])])), ["x", "secret"], TOP)
  {
    var secret := Field("Secret", "secret", true, false, PrimT(""));
    var fs := [secret];
    assert TagName("secret") == "secret" by {
      SplitOne("secret", ',');
    }
    assert FieldHit(fs, "secret", 0);
    var v := Struct([Prim("s")]);
    var entries := map["x" := v];
    assert ["x", "secret"][1..] == ["secret"];
    assert Refused(PrimT(""), v.fields[0], ["secret"][1..], TOP.Field(fs[0]), false);
    assert PanicsIn(StructT(fs), v, ["secret"], TOP);
    assert KeyHit("x", "x") && "x" in entries;
    assert Refused(StructT(fs), entries["x"], ["secret"], TOP.Behind().InMap(), true);
    assert PanicsIn(MapT(StructT(fs)), Map(entries), ["x", "secret"], TOP.Behind());
  }

  // ----- the code -----

  datatype Outcome = Done | Failed | Panicked

  /** What the code leaves behind and reports, for a value of the given type. */
  ghost predicate Correct(ty: Type, v: Value, parts: Path, a: Access, w: Value, o: Outcome) {
    && (o.Panicked? <==> Panics(ty, v, parts, a))
    && (!o.Panicked? ==> w == Clear(ty, v, parts) && (o.Failed? <==> Fails(ty, v, parts)))
  }

  ghost predicate CorrectIn(ty: Type, v: Value, parts: Path, a: Access, w: Value, o: Outcome)
    requires parts != []
  {
    && (o.Panicked? <==> PanicsIn(ty, v, parts, a))
    && (!o.Panicked? ==> w == ClearIn(ty, v, parts) && (o.Failed? <==> FailsIn(ty, v, parts)))
  }

  method ClearRecursive(ty: Type, v: Value, parts: Path, a: Access) returns (w: Value, o: Outcome)
    requires HasType(v, ty)
    ensures Correct(ty, v, parts, a, w, o)
    ensures o.Failed? ==> w == v
    decreases ty, 2
  {
    if |parts| == 0 {
      return v, Done;
    }
    if ty.PtrT? {
      if v.Nil? {
        return v, Done;
      }
      var inner;
      inner, o := Navigate(ty.elem, v.pointee, parts, a.Behind());
      w := Ptr(inner);
    } else {
      w, o := Navigate(ty, v, parts, a);
    }
    if o.Failed? {
      FailureChangesNothing(ty, v, parts);
    }
  }

  /** The switch on the kind of value. */
  method Navigate(ty: Type, v: Value, parts: Path, a: Access) returns (w: Value, o: Outcome)
    requires parts != [] && HasType(v, ty)
    ensures CorrectIn(ty, v, parts, a, w, o)
    decreases ty, 1
  {
    match ty
    case StructT(fs) =>
      if parts[0] == WILDCARD {
        w, o := AllFields(fs, v, parts, a);
      } else {
        w, o := OneField(fs, v, parts, a);
      }
    case MapT(e) =>
      if parts[0] == WILDCARD {
        w, o := AllEntries(e, v, parts, a);
      } else {
        w, o := OneEntry(e, v, parts, a);
      }
    case SliceT(e) =>
      w, o := Indexed(e, v, parts, a.InSlice());
    case ArrayT(n, e) =>
      w, o := Indexed(e, v, parts, a.InArray());
    case PrimT(_) =>
      w, o := v, Failed;
    case PtrT(_) =>
      w, o := v, Failed;
  }

  /** Zeroing a child, or clearing further inside it: the two arms of `last`. */
  method Child(ty: Type, v: Value, rest: Path, a: Access, writable: bool) returns (w: Value, o: Outcome)
    requires HasType(v, ty)
    ensures o.Panicked? <==> Refused(ty, v, rest, a, writable)
    ensures !o.Panicked? ==> w == Touch(true, ty, v, rest) && (o.Failed? <==> Fails(ty, v, rest))
    decreases ty, 3
  {
    if |rest| == 0 {
      if writable {
        return Zero(ty), Done;
      }
      return v, Panicked;
    }
    w, o := ClearRecursive(ty, v, rest, a);
  }

  method AllFields(fs: seq<Field>, v: Value, parts: Path, a: Access) returns (w: Value, o: Outcome)
    requires parts != [] && parts[0] == WILDCARD && HasType(v, StructT(fs))
    ensures CorrectIn(StructT(fs), v, parts, a, w, o)
    decreases StructT(fs), 0
  {
    var fields := v.fields;
    for i := 0 to |fs|
      invariant |fields| == |fs|
      invariant forall j | i <= j < |fs| :: fields[j] == v.fields[j]
      invariant forall j | 0 <= j < i :: fields[j] == Touch(true, fs[j].ty, v.fields[j], parts[1..])
      invariant forall j | 0 <= j < i ::
          !Refused(fs[j].ty, v.fields[j], parts[1..], a.Field(fs[j]), a.Field(fs[j]).Settable())
    {
      var child, oc := Child(fs[i].ty, v.fields[i], parts[1..], a.Field(fs[i]), a.Field(fs[i]).Settable());
      if oc.Panicked? {
        assert FieldHit(fs, parts[0], i);
        return v, Panicked;
      }
      fields := fields[i := child];
    }
    w, o := Struct(fields), Done;
    assert fields == ClearIn(StructT(fs), v, parts).fields;
  }

  method OneField(fs: seq<Field>, v: Value, parts: Path, a: Access) returns (w: Value, o: Outcome)
    requires parts != [] && parts[0] != WILDCARD && HasType(v, StructT(fs))
    ensures CorrectIn(StructT(fs), v, parts, a, w, o)
    decreases StructT(fs), 0
  {
    var at := FindStructFieldByJSONTag(fs, parts[0]);
    if at.None? {
      assert v.fields == ClearIn(StructT(fs), v, parts).fields;
      return v, Failed;
    }
    var i := at.value;
    var child;
    child, o := Child(fs[i].ty, v.fields[i], parts[1..], a.Field(fs[i]), a.Field(fs[i]).Settable());
    assert FieldHit(fs, parts[0], i);
    w := Struct(v.fields[i := child]);
    if !o.Panicked? {
      assert w.fields == ClearIn(StructT(fs), v, parts).fields;
    }
  }

  method AllEntries(e: Type, v: Value, parts: Path, a: Access) returns (w: Value, o: Outcome)
    requires parts != [] && parts[0] == WILDCARD && HasType(v, MapT(e))
    ensures CorrectIn(MapT(e), v, parts, a, w, o)
    decreases MapT(e), 0
  {
    if v.Nil? {
      return v, Done;
    }
    var entries := v.entries;
    var keys := entries.Keys;
    while keys != {}
      invariant keys <= v.entries.Keys == entries.Keys
      invariant forall k | k in keys :: entries[k] == v.entries[k]
      invariant forall k | k in v.entries && k !in keys :: entries[k] == Touch(true, e, v.entries[k], parts[1..])
      invariant forall k | k in v.entries && k !in keys :: !Refused(e, v.entries[k], parts[1..], a.InMap(), a.Open())
      decreases keys
    {
      var key :| key in keys;
      var child, oc := Child(e, v.entries[key], parts[1..], a.InMap(), a.Open());
      if oc.Panicked? {
        assert KeyHit(parts[0], key);
        return v, Panicked;
      }
      entries := entries[key := child];
      keys := keys - {key};
    }
    w, o := Map(entries), Done;
    assert entries == ClearIn(MapT(e), v, parts).entries;
  }

  method OneEntry(e: Type, v: Value, parts: Path, a: Access) returns (w: Value, o: Outcome)
    requires parts != [] && parts[0] != WILDCARD && HasType(v, MapT(e))
    ensures CorrectIn(MapT(e), v, parts, a, w, o)
    decreases MapT(e), 0
  {
    var key := parts[0];
    if v.Nil? || key !in v.entries {
      assert v.Map? ==> v.entries == ClearIn(MapT(e), v, parts).entries;
      return v, Done;
    }
    var child;
    child, o := Child(e, v.entries[key], parts[1..], a.InMap(), a.Open());
    assert KeyHit(parts[0], key);
    w := Map(v.entries[key := child]);
    if !o.Panicked? {
      assert w.entries == ClearIn(MapT(e), v, parts).entries;
    }
  }

  /** Slices and arrays: all elements, or the one at a decimal index. */
  method Indexed(e: Type, v: Value, parts: Path, a: Access) returns (w: Value, o: Outcome)
    requires parts != []
    requires v.Nil? || (v.List? && forall i | 0 <= i < |v.elems| :: HasType(v.elems[i], e))
    ensures o.Panicked? <==> PanicsElem(e, v, parts, a)
    ensures !o.Panicked? ==> w == ClearElems(e, v, parts) && (o.Failed? <==> FailsElem(e, v, parts))
    decreases e, 4
  {
    var elems := Elems(v);
    if parts[0] == WILDCARD {
      for i := 0 to |elems|
        invariant |elems| == |Elems(v)|
        invariant forall j | i <= j < |elems| :: elems[j] == Elems(v)[j]
        invariant forall j | 0 <= j < i :: elems[j] == Touch(true, e, Elems(v)[j], parts[1..])
        invariant forall j | 0 <= j < i :: !Refused(e, Elems(v)[j], parts[1..], a, a.Settable())
      {
        var child, oc := Child(e, elems[i], parts[1..], a, a.Settable());
        if oc.Panicked? {
          assert IndexHit(parts[0], i);
          return v, Panicked;
        }
        elems := elems[i := child];
      }
      w, o := if v.Nil? then v else List(elems), Done;
      assert v.List? ==> elems == ClearElems(e, v, parts).elems;
    } else {
      var idx := Atoi(parts[0]);
      if idx.None? || idx.value < 0 || idx.value >= |elems| {
        assert v.List? ==> v.elems == ClearElems(e, v, parts).elems;
        return v, Failed;
      }
      var child;
      child, o := Child(e, elems[idx.value], parts[1..], a, a.Settable());
      assert IndexHit(parts[0], idx.value);
      w := List(elems[idx.value := child]);
      if !o.Panicked? {
        assert w.elems == ClearElems(e, v, parts).elems;
      }
    }
  }

  /** internal.ClearByPath on a pointer, the way the poller calls it. */
  method ClearByPath(ty: Type, v: Value, path: string) returns (w: Value, o: Outcome)
    requires ty.PtrT? && HasType(v, ty)
    ensures Correct(ty, v, Scan(path, "", false), TOP, w, o)
    ensures Permitted(ty, Scan(path, "", false), TOP) ==> !o.Panicked?
  {
    var parts := SplitPath(path);
    w, o := ClearRecursive(ty, v, parts, TOP);
    if Permitted(ty, parts, TOP) {
      PermittedNeverPanics(ty, v, parts, TOP);
    }
  }
}
