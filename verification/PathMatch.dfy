/** What a path means, without saying how it is cleared: the locations of a value
    and which of them the path matches. `Clear` zeroes exactly those. */
module PathMatch {
  import opened Text
  import opened PathSyntax
  import opened Values
  import opened PathClear

  /** One step from a value to one of its parts; a pointer in between is followed. */
  datatype Selector = FieldAt(i: nat) | KeyAt(k: string) | IndexAt(i: nat)

  type Location = seq<Selector>

  datatype Place = Place(ty: Type, v: Value)

  function Pointed(ty: Type): Type {
    if ty.PtrT? then ty.elem else ty
  }

  /** The part of `v` that `sel` names, if it has one. */
  function Part(ty: Type, v: Value, sel: Selector): Option<Place> {
    if ty.PtrT? then (if v.Ptr? then PartIn(ty.elem, v.pointee, sel) else None)
    else PartIn(ty, v, sel)
  }

  function PartIn(ty: Type, v: Value, sel: Selector): Option<Place> {
    match (ty, sel)
    case (StructT(fs), FieldAt(i)) =>
      if v.Struct? && |v.fields| == |fs| && i < |fs| then Some(Place(fs[i].ty, v.fields[i])) else None
    case (MapT(e), KeyAt(k)) =>
      if v.Map? && k in v.entries then Some(Place(e, v.entries[k])) else None
    case (SliceT(e), IndexAt(i)) =>
      if v.List? && i < |v.elems| then Some(Place(e, v.elems[i])) else None
    case (ArrayT(_, e), IndexAt(i)) =>
      if v.List? && i < |v.elems| then Some(Place(e, v.elems[i])) else None
    case _ => None
  }

  function At(ty: Type, v: Value, loc: Location): Option<Place>
    decreases |loc|
  {
    if loc == [] then Some(Place(ty, v))
    else
      var part := Part(ty, v, loc[0]);
      if part.None? then None else At(part.value.ty, part.value.v, loc[1..])
  }

  /** A segment matches a step: the wildcard every step, a name the first field
      that answers to it, a key that key, a number that index. */
  predicate Hits(ty: Type, part: string, sel: Selector) {
    match (Pointed(ty), sel)
    case (StructT(fs), FieldAt(i)) => FieldHit(fs, part, i)
    case (MapT(_), KeyAt(k)) => KeyHit(part, k)
    case (SliceT(_), IndexAt(i)) => IndexHit(part, i)
    case (ArrayT(_, _), IndexAt(i)) => IndexHit(part, i)
    case _ => false
  }

  /** A path matches a location of `v` segment by segment. */
  predicate Matches(ty: Type, v: Value, parts: Path, loc: Location)
    requires |parts| == |loc|
    decreases |loc|
  {
    loc == [] ||
    (Hits(ty, parts[0], loc[0]) &&
     var part := Part(ty, v, loc[0]);
     part.Some? && Matches(part.value.ty, part.value.v, parts[1..], loc[1..]))
  }

  /** Same constructor, same length, same keys, same nilness. */
  predicate SameShape(v: Value, w: Value) {
    match v
    case Prim(_) => w == v
    case Struct(fs) => w.Struct? && |w.fields| == |fs|
    case Nil => w.Nil?
    case Ptr(x) => w.Ptr? && SameShape(x, w.pointee)
    case List(es) => w.List? && |w.elems| == |es|
    case Map(m) => w.Map? && w.entries.Keys == m.Keys
  }

  /** One step into a cleared value. */
  lemma PartOfCleared(ty: Type, v: Value, parts: Path, sel: Selector)
    requires parts != []
    ensures Part(ty, Clear(ty, v, parts), sel) ==
            match Part(ty, v, sel)
            case None => None
            case Some(p) => Some(Place(p.ty, Touch(Hits(ty, parts[0], sel), p.ty, p.v, parts[1..])))
  {
    var t := Pointed(ty);
    var x := if ty.PtrT? && v.Ptr? then v.pointee else v;
    match t
    case SliceT(e) => assert ClearIn(t, x, parts) == ClearElems(e, x, parts);
    case ArrayT(_, e) => assert ClearIn(t, x, parts) == ClearElems(e, x, parts);
    case _ =>
  }

  /** Every matched location ends up holding the zero of its type. */
  lemma {:induction false} MatchedIsZeroed(ty: Type, v: Value, parts: Path, loc: Location)
    requires |parts| == |loc| >= 1 && Matches(ty, v, parts, loc)
    ensures At(ty, v, loc).Some?
    ensures At(ty, Clear(ty, v, parts), loc) == Some(Place(At(ty, v, loc).value.ty, Zero(At(ty, v, loc).value.ty)))
    decreases |loc|
  {
    PartOfCleared(ty, v, parts, loc[0]);
    var part := Part(ty, v, loc[0]).value;
    if |loc| > 1 {
      MatchedIsZeroed(part.ty, part.v, parts[1..], loc[1..]);
    }
  }

  /** Every location that is not under a match is unchanged: it reads as before, or
      still does not exist. */
  lemma {:induction false} UnmatchedIsKept(ty: Type, v: Value, parts: Path, loc: Location)
    requires 1 <= |parts| <= |loc| && !Matches(ty, v, parts, loc[..|parts|])
    ensures At(ty, Clear(ty, v, parts), loc) == At(ty, v, loc)
    decreases |loc|
  {
    PartOfCleared(ty, v, parts, loc[0]);
    var part := Part(ty, v, loc[0]);
    if part.Some? && Hits(ty, parts[0], loc[0]) {
      assert loc[..|parts|][1..] == loc[1..][..|parts| - 1];
      if |parts| > 1 {
        UnmatchedIsKept(part.value.ty, part.value.v, parts[1..], loc[1..]);
      }
    }
  }

  lemma {:induction false} ShapeOfCleared(ty: Type, v: Value, parts: Path)
    requires HasType(v, ty) && parts != []
    ensures SameShape(v, Clear(ty, v, parts))
  {
    var t := Pointed(ty);
    var x := if v.Ptr? then v.pointee else v;
    match t
    case SliceT(e) => assert ClearIn(t, x, parts) == ClearElems(e, x, parts);
    case ArrayT(_, e) => assert ClearIn(t, x, parts) == ClearElems(e, x, parts);
    case PtrT(_) => SameShapeRefl(v);
    case _ =>
  }

  lemma {:induction false} SameShapeRefl(v: Value)
    ensures SameShape(v, v)
  {
    if v.Ptr? {
      SameShapeRefl(v.pointee);
    }
  }

  lemma PartTyped(ty: Type, v: Value, sel: Selector)
    requires HasType(v, ty)
    ensures Part(ty, v, sel).Some? ==> HasType(Part(ty, v, sel).value.v, Part(ty, v, sel).value.ty)
  {
  }

  /** Above the matches nothing is created, removed or reshaped: lengths, map keys,
      nilness and types stay. */
  lemma {:induction false} ShapeIsKept(ty: Type, v: Value, parts: Path, loc: Location)
    requires HasType(v, ty) && |loc| < |parts|
    ensures At(ty, v, loc).Some? <==> At(ty, Clear(ty, v, parts), loc).Some?
    ensures At(ty, v, loc).Some? ==>
              var before, after := At(ty, v, loc).value, At(ty, Clear(ty, v, parts), loc).value;
              before.ty == after.ty && SameShape(before.v, after.v)
    decreases |loc|
  {
    if loc == [] {
      ShapeOfCleared(ty, v, parts);
    } else {
      PartOfCleared(ty, v, parts, loc[0]);
      var part := Part(ty, v, loc[0]);
      if part.Some? {
        PartTyped(ty, v, loc[0]);
        if Hits(ty, parts[0], loc[0]) {
          ShapeIsKept(part.value.ty, part.value.v, parts[1..], loc[1..]);
        } else if At(part.value.ty, part.value.v, loc[1..]).Some? {
          SameShapeRefl(At(part.value.ty, part.value.v, loc[1..]).value.v);
        }
      }
    }
  }

  /** The cleared value still has the type. */
  lemma {:induction false} ClearTyped(ty: Type, v: Value, parts: Path)
    requires HasType(v, ty)
    ensures HasType(Clear(ty, v, parts), ty)
    decreases ty, 1
  {
    if parts != [] {
      if ty.PtrT? {
        if v.Ptr? {
          ClearInTyped(ty.elem, v.pointee, parts);
        }
      } else {
        ClearInTyped(ty, v, parts);
      }
    }
  }

  lemma {:induction false} ClearInTyped(ty: Type, v: Value, parts: Path)
    requires HasType(v, ty) && parts != []
    ensures HasType(ClearIn(ty, v, parts), ty)
    decreases ty, 0
  {
    match ty
    case StructT(fs) =>
      forall i | 0 <= i < |fs| ensures HasType(ClearIn(ty, v, parts).fields[i], fs[i].ty) {
        TouchTyped(FieldHit(fs, parts[0], i), fs[i].ty, v.fields[i], parts[1..]);
      }
    case MapT(e) =>
      if v.Map? {
        forall k | k in v.entries ensures HasType(ClearIn(ty, v, parts).entries[k], e) {
          TouchTyped(KeyHit(parts[0], k), e, v.entries[k], parts[1..]);
        }
      }
    case SliceT(e) => ClearElemsTyped(e, v, parts);
    case ArrayT(_, e) => ClearElemsTyped(e, v, parts);
    case _ =>
  }

  lemma {:induction false} ClearElemsTyped(e: Type, v: Value, parts: Path)
    requires parts != [] && (v.List? ==> forall i | 0 <= i < |v.elems| :: HasType(v.elems[i], e))
    ensures v.List? ==> ClearElems(e, v, parts).List? && |ClearElems(e, v, parts).elems| == |v.elems|
    ensures v.List? ==> forall i | 0 <= i < |v.elems| :: HasType(ClearElems(e, v, parts).elems[i], e)
    decreases e, 3
  {
    if v.List? {
      forall i | 0 <= i < |v.elems| ensures HasType(ClearElems(e, v, parts).elems[i], e) {
        TouchTyped(IndexHit(parts[0], i), e, v.elems[i], parts[1..]);
      }
    }
  }

  lemma {:induction false} TouchTyped(hit: bool, ty: Type, v: Value, rest: Path)
    requires HasType(v, ty)
    ensures HasType(Touch(hit, ty, v, rest), ty)
    decreases ty, 2
  {
    ZeroTyped(ty);
    ClearTyped(ty, v, rest);
  }

  // ----- segments in words -----

  /** A field answers to its Go name and to the name in its json tag, if it is exported. */
  ghost predicate AnswersTo(f: Field, name: string) {
    f.exported && (f.name == name || (f.tag == name && name != "") || exists options :: f.tag == name + ("," + options))
  }

  /** What a segment selects: all, the first field that answers to it, that key, that index. */
  lemma HitsMeaning(ty: Type, part: string, sel: Selector)
    requires ',' !in part
    ensures Hits(ty, part, sel) <==>
            match (Pointed(ty), sel)
            case (StructT(fs), FieldAt(i)) =>
              part == "*" || (i < |fs| && AnswersTo(fs[i], part) && forall j | 0 <= j < i :: !AnswersTo(fs[j], part))
            case (MapT(_), KeyAt(k)) => part == "*" || part == k
            case (SliceT(_), IndexAt(i)) => part == "*" || Atoi(part) == Some(i as int)
            case (ArrayT(_, _), IndexAt(i)) => part == "*" || Atoi(part) == Some(i as int)
            case _ => false
  {
    if Pointed(ty).StructT? {
      forall f ensures Named(f, part) <==> AnswersTo(f, part) {
        NamedMeaning(f, part);
      }
    }
  }

  /** The segment names just this step: a field that alone answers to it, a key, an index
      in decimal. */
  ghost predicate Spells(ty: Type, part: string, sel: Selector) {
    part != "*" && ',' !in part &&
    match (Pointed(ty), sel)
    case (StructT(fs), FieldAt(i)) => i < |fs| && AnswersTo(fs[i], part) && forall j | 0 <= j < |fs| && AnswersTo(fs[j], part) :: j == i
    case (MapT(_), KeyAt(k)) => part == k
    case (SliceT(_), IndexAt(i)) => part == Itoa(i)
    case (ArrayT(_, _), IndexAt(i)) => part == Itoa(i)
    case _ => false
  }

  lemma SpelledHitsOne(ty: Type, part: string, sel: Selector)
    requires Spells(ty, part, sel)
    ensures forall other :: Hits(ty, part, other) <==> other == sel
  {
    forall other ensures Hits(ty, part, other) <==> other == sel {
      HitsMeaning(ty, part, other);
      if sel.IndexAt? {
        AtoiReadsItoa(sel.i);
      }
    }
  }

  /** The path names the location step by step. */
  ghost predicate SpellsOut(ty: Type, v: Value, parts: Path, loc: Location)
    decreases |loc|
  {
    && |parts| == |loc|
    && (loc == [] ||
        (Spells(ty, parts[0], loc[0]) &&
         var part := Part(ty, v, loc[0]);
         part.Some? && SpellsOut(part.value.ty, part.value.v, parts[1..], loc[1..])))
  }

  lemma {:induction false} SpelledMatchesOne(ty: Type, v: Value, parts: Path, loc: Location, other: Location)
    requires SpellsOut(ty, v, parts, loc) && |other| == |loc|
    ensures Matches(ty, v, parts, other) <==> other == loc
    decreases |loc|
  {
    if loc != [] {
      SpelledHitsOne(ty, parts[0], loc[0]);
      if other[0] == loc[0] {
        var part := Part(ty, v, loc[0]).value;
        SpelledMatchesOne(part.ty, part.v, parts[1..], loc[1..], other[1..]);
        assert other == [loc[0]] + other[1..] && loc == [loc[0]] + loc[1..];
      }
    }
  }

  /** A path that names a location erases it, and nothing beside it. */
  lemma SpelledIsErased(ty: Type, v: Value, parts: Path, loc: Location)
    requires loc != [] && SpellsOut(ty, v, parts, loc)
    ensures At(ty, v, loc).Some?
    ensures var t := At(ty, v, loc).value.ty; At(ty, Clear(ty, v, parts), loc) == Some(Place(t, Zero(t)))
    ensures forall other | |other| >= |loc| && other[..|loc|] != loc :: At(ty, Clear(ty, v, parts), other) == At(ty, v, other)
  {
    SpelledMatchesOne(ty, v, parts, loc, loc);
    MatchedIsZeroed(ty, v, parts, loc);
    forall other | |other| >= |loc| && other[..|loc|] != loc ensures At(ty, Clear(ty, v, parts), other) == At(ty, v, other) {
      SpelledMatchesOne(ty, v, parts, loc, other[..|loc|]);
      UnmatchedIsKept(ty, v, parts, other);
    }
  }

  /** What is left of an erased value: nil references, and zeroes wherever one looks. */
  lemma {:induction false} ErasedThroughout(ty: Type, loc: Location)
    requires At(ty, Zero(ty), loc).Some?
    ensures var place := At(ty, Zero(ty), loc).value;
            match place.ty
            case PrimT(z) => place.v == Prim(z)
            case StructT(fs) => place.v.Struct? && |place.v.fields| == |fs|
            case ArrayT(n, _) => place.v.List? && |place.v.elems| == n
            case _ => place.v == Nil
    decreases |loc|
  {
    if loc != [] {
      var part := Part(ty, Zero(ty), loc[0]).value;
      assert part.v == Zero(part.ty);
      ErasedThroughout(part.ty, loc[1..]);
    }
  }

  // ----- locations apart from a path, whatever the value -----

  function PartType(ty: Type, sel: Selector): Type {
    match (Pointed(ty), sel)
    case (StructT(fs), FieldAt(i)) => if i < |fs| then fs[i].ty else PrimT("")
    case (MapT(e), KeyAt(_)) => e
    case (SliceT(e), IndexAt(_)) => e
    case (ArrayT(_, e), IndexAt(_)) => e
    case _ => PrimT("")
  }

  /** The path turns another way before it ends, and so does not touch the location. */
  predicate Apart(ty: Type, p: Path, loc: Location)
    decreases |loc|
  {
    p == [] || (loc != [] && ApartIn(ty, p, loc))
  }

  predicate ApartIn(ty: Type, p: Path, loc: Location)
    requires p != [] && loc != []
    decreases |loc|, 0
  {
    !Hits(ty, p[0], loc[0]) || (|p| > 1 && |loc| > 1 && ApartIn(PartType(ty, loc[0]), p[1..], loc[1..]))
  }

  lemma {:induction false} ApartInIsKept(ty: Type, v: Value, p: Path, loc: Location)
    requires p != [] && loc != [] && ApartIn(ty, p, loc)
    ensures At(ty, Clear(ty, v, p), loc) == At(ty, v, loc)
    decreases |loc|
  {
    PartOfCleared(ty, v, p, loc[0]);
    var part := Part(ty, v, loc[0]);
    if part.Some? && Hits(ty, p[0], loc[0]) {
      assert part.value.ty == PartType(ty, loc[0]);
      ApartInIsKept(part.value.ty, part.value.v, p[1..], loc[1..]);
    }
  }

  lemma ApartIsKept(ty: Type, v: Value, p: Path, loc: Location)
    requires Apart(ty, p, loc)
    ensures At(ty, Clear(ty, v, p), loc) == At(ty, v, loc)
  {
    if p != [] {
      ApartInIsKept(ty, v, p, loc);
    }
  }

  /** Nor does a list of such paths. */
  lemma {:induction false} AllApartIsKept(ty: Type, v: Value, ps: seq<Path>, loc: Location)
    requires forall p | p in ps :: Apart(ty, p, loc)
    ensures At(ty, ClearAll(ty, v, ps), loc) == At(ty, v, loc)
    decreases |ps|
  {
    if ps != [] {
      ApartIsKept(ty, v, ps[0], loc);
      AllApartIsKept(ty, Clear(ty, v, ps[0]), ps[1..], loc);
    }
  }
}
