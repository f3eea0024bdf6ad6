/** internal.clearRecursive: erasing, in place, everything a path of segments
    selects. `Clear` says what value results, `Fails` when an error is returned
    and `Panics` when reflection refuses to write. */
module PathClear {
  import opened PathSyntax
  import opened Values

  // ----- the resulting value -----

  function Clear(ty: Type, v: Value, parts: Path): Value
    decreases ty, 1
  {
    if parts == [] then v
    else if ty.PtrT? then (if v.Ptr? then Ptr(ClearIn(ty.elem, v.pointee, parts)) else v)
    else ClearIn(ty, v, parts)
  }

  /** `Clear` after the one pointer the code follows. */
  function ClearIn(ty: Type, v: Value, parts: Path): Value
    requires parts != []
    decreases ty, 0
  {
    match ty
    case StructT(fs) =>
      if v.Struct? && |v.fields| == |fs| then
        Struct(seq(|fs|, i requires 0 <= i < |fs| =>
          Touch(FieldHit(fs, parts[0], i), fs[i].ty, v.fields[i], parts[1..])))
      else v
    case MapT(e) =>
      if v.Map? then
        Map(map k | k in v.entries :: Touch(KeyHit(parts[0], k), e, v.entries[k], parts[1..]))
      else v
    case SliceT(e) => ClearElems(e, v, parts)
    case ArrayT(_, e) => ClearElems(e, v, parts)
    case _ => v
  }

  function ClearElems(e: Type, v: Value, parts: Path): Value
    requires parts != []
    decreases e, 3
  {
    if v.List? then
      List(seq(|v.elems|, i requires 0 <= i < |v.elems| =>
        Touch(IndexHit(parts[0], i), e, v.elems[i], parts[1..])))
    else v
  }

  /** What happens to a child: untouched, zeroed, or cleared further down. */
  function Touch(hit: bool, ty: Type, v: Value, rest: Path): Value
    decreases ty, 2
  {
    if !hit then v else if rest == [] then Zero(ty) else Clear(ty, v, rest)
  }

  function ClearAll(ty: Type, v: Value, paths: seq<Path>): Value
    decreases |paths|
  {
    if paths == [] then v else ClearAll(ty, Clear(ty, v, paths[0]), paths[1..])
  }

  // ----- algebra -----

  /** Clearing inside a zero value leaves it zero. */
  lemma {:induction false} ZeroStays(ty: Type, parts: Path)
    ensures Clear(ty, Zero(ty), parts) == Zero(ty)
  {
    if parts != [] {
      match ty
      case StructT(fs) =>
        forall i | 0 <= i < |fs| ensures Touch(FieldHit(fs, parts[0], i), fs[i].ty, Zero(fs[i].ty), parts[1..]) == Zero(fs[i].ty) {
          ZeroStays(fs[i].ty, parts[1..]);
        }
      case ArrayT(n, e) =>
        ZeroStays(e, parts[1..]);
        assert ClearElems(e, Zero(ty), parts).elems == Zero(ty).elems;
      case PrimT(_) =>
      case PtrT(_) =>
      case SliceT(e) => assert ClearElems(e, Nil, parts) == Nil;
      case MapT(_) =>
    }
  }

  /** Clearing two paths gives the same value in either order, however they overlap. */
  lemma {:induction false} Commute(ty: Type, v: Value, p: Path, q: Path)
    ensures Clear(ty, Clear(ty, v, p), q) == Clear(ty, Clear(ty, v, q), p)
    decreases ty, 1
  {
    if p != [] && q != [] {
      if ty.PtrT? {
        if v.Ptr? {
          CommuteIn(ty.elem, v.pointee, p, q);
        }
      } else {
        CommuteIn(ty, v, p, q);
      }
    }
  }

  lemma {:induction false} CommuteIn(ty: Type, v: Value, p: Path, q: Path)
    requires p != [] && q != []
    ensures ClearIn(ty, ClearIn(ty, v, p), q) == ClearIn(ty, ClearIn(ty, v, q), p)
    decreases ty, 0
  {
    match ty
    case StructT(fs) =>
      if v.Struct? && |v.fields| == |fs| {
        forall i | 0 <= i < |fs|
          ensures ClearIn(ty, ClearIn(ty, v, p), q).fields[i] == ClearIn(ty, ClearIn(ty, v, q), p).fields[i]
        {
          CommuteTouch(fs[i].ty, v.fields[i], FieldHit(fs, p[0], i), p[1..], FieldHit(fs, q[0], i), q[1..]);
        }
      }
    case MapT(e) =>
      if v.Map? {
        forall k | k in v.entries
          ensures ClearIn(ty, ClearIn(ty, v, p), q).entries[k] == ClearIn(ty, ClearIn(ty, v, q), p).entries[k]
        {
          CommuteTouch(e, v.entries[k], KeyHit(p[0], k), p[1..], KeyHit(q[0], k), q[1..]);
        }
      }
    case SliceT(e) => CommuteElems(e, v, p, q);
    case ArrayT(_, e) => CommuteElems(e, v, p, q);
    case _ =>
  }

  lemma {:induction false} CommuteElems(e: Type, v: Value, p: Path, q: Path)
    requires p != [] && q != []
    ensures ClearElems(e, ClearElems(e, v, p), q) == ClearElems(e, ClearElems(e, v, q), p)
    decreases e, 3
  {
    if v.List? {
      forall i | 0 <= i < |v.elems|
        ensures ClearElems(e, ClearElems(e, v, p), q).elems[i] == ClearElems(e, ClearElems(e, v, q), p).elems[i]
      {
        CommuteTouch(e, v.elems[i], IndexHit(p[0], i), p[1..], IndexHit(q[0], i), q[1..]);
      }
    }
  }

  lemma {:induction false} CommuteTouch(ty: Type, v: Value, hp: bool, p: Path, hq: bool, q: Path)
    ensures Touch(hq, ty, Touch(hp, ty, v, p), q) == Touch(hp, ty, Touch(hq, ty, v, q), p)
    decreases ty, 2
  {
    if hp && hq {
      ZeroStays(ty, p);
      ZeroStays(ty, q);
      Commute(ty, v, p, q);
    }
  }

  /** A path makes every longer path below it redundant. */
  lemma {:induction false} PrefixSubsumes(ty: Type, v: Value, p: Path, more: Path)
    requires p != []
    ensures Clear(ty, Clear(ty, v, p), p + more) == Clear(ty, v, p)
    decreases ty, 1
  {
    if ty.PtrT? {
      if v.Ptr? {
        PrefixSubsumesIn(ty.elem, v.pointee, p, more);
      }
    } else {
      PrefixSubsumesIn(ty, v, p, more);
    }
  }

  lemma {:induction false} PrefixSubsumesIn(ty: Type, v: Value, p: Path, more: Path)
    requires p != []
    ensures ClearIn(ty, ClearIn(ty, v, p), p + more) == ClearIn(ty, v, p)
    decreases ty, 0
  {
    match ty
    case StructT(fs) =>
      if v.Struct? && |v.fields| == |fs| {
        forall i | 0 <= i < |fs|
          ensures ClearIn(ty, ClearIn(ty, v, p), p + more).fields[i] == ClearIn(ty, v, p).fields[i]
        {
          PrefixSubsumesTouch(FieldHit(fs, p[0], i), fs[i].ty, v.fields[i], p, more);
        }
      }
    case MapT(e) =>
      if v.Map? {
        forall k | k in v.entries
          ensures ClearIn(ty, ClearIn(ty, v, p), p + more).entries[k] == ClearIn(ty, v, p).entries[k]
        {
          PrefixSubsumesTouch(KeyHit(p[0], k), e, v.entries[k], p, more);
        }
      }
    case SliceT(e) => PrefixSubsumesElems(e, v, p, more);
    case ArrayT(_, e) => PrefixSubsumesElems(e, v, p, more);
    case _ =>
  }

  lemma {:induction false} PrefixSubsumesElems(e: Type, v: Value, p: Path, more: Path)
    requires p != []
    ensures ClearElems(e, ClearElems(e, v, p), p + more) == ClearElems(e, v, p)
    decreases e, 3
  {
    if v.List? {
      forall i | 0 <= i < |v.elems|
        ensures ClearElems(e, ClearElems(e, v, p), p + more).elems[i] == ClearElems(e, v, p).elems[i]
      {
        PrefixSubsumesTouch(IndexHit(p[0], i), e, v.elems[i], p, more);
      }
    }
  }

  lemma {:induction false} PrefixSubsumesTouch(hit: bool, ty: Type, v: Value, p: Path, more: Path)
    requires p != []
    ensures Touch(hit, ty, Touch(hit, ty, v, p[1..]), (p + more)[1..]) == Touch(hit, ty, v, p[1..])
    decreases ty, 2
  {
    assert (p + more)[1..] == p[1..] + more;
    if hit {
      if |p| == 1 {
        ZeroStays(ty, more);
      } else {
        PrefixSubsumes(ty, v, p[1..], more);
      }
    }
  }

  /** Clearing a path again changes nothing. */
  lemma Idempotent(ty: Type, v: Value, p: Path)
    ensures Clear(ty, Clear(ty, v, p), p) == Clear(ty, v, p)
  {
    if p != [] {
      PrefixSubsumes(ty, v, p, []);
      assert p + [] == p;
    }
  }

  // ----- lists of paths -----

  /** One path may be moved across a whole list. */
  lemma {:induction false} ClearAllSwap(ty: Type, v: Value, ps: seq<Path>, q: Path)
    ensures ClearAll(ty, Clear(ty, v, q), ps) == Clear(ty, ClearAll(ty, v, ps), q)
    decreases |ps|
  {
    if ps != [] {
      Commute(ty, v, q, ps[0]);
      ClearAllSwap(ty, Clear(ty, v, ps[0]), ps[1..], q);
    }
  }

  /** A list leaves nothing for any of its own paths to change. */
  lemma {:induction false} ClearAllSettles(ty: Type, v: Value, ps: seq<Path>, q: Path)
    requires q in ps
    ensures Clear(ty, ClearAll(ty, v, ps), q) == ClearAll(ty, v, ps)
    ensures ClearAll(ty, Clear(ty, v, q), ps) == ClearAll(ty, v, ps)
    decreases |ps|
  {
    ClearAllSwap(ty, v, ps, q);
    if q == ps[0] {
      ClearAllSwap(ty, Clear(ty, v, q), ps[1..], q);
      Idempotent(ty, v, q);
    } else {
      ClearAllSettles(ty, Clear(ty, v, ps[0]), ps[1..], q);
    }
  }

  lemma {:induction false} ClearAllAbsorbs(ty: Type, v: Value, ps: seq<Path>, qs: seq<Path>)
    requires forall q | q in qs :: q in ps
    ensures ClearAll(ty, ClearAll(ty, v, ps), qs) == ClearAll(ty, v, ps)
    decreases |qs|
  {
    if qs != [] {
      ClearAllSettles(ty, v, ps, qs[0]);
      ClearAllAbsorbs(ty, v, ps, qs[1..]);
    }
  }

  lemma {:induction false} ClearAllCommute(ty: Type, v: Value, ps: seq<Path>, qs: seq<Path>)
    ensures ClearAll(ty, ClearAll(ty, v, ps), qs) == ClearAll(ty, ClearAll(ty, v, qs), ps)
    decreases |qs|
  {
    if qs != [] {
      ClearAllSwap(ty, v, ps, qs[0]);
      ClearAllCommute(ty, Clear(ty, v, qs[0]), ps, qs[1..]);
    }
  }

  /** The outcome depends only on which paths are listed: neither their order nor
      repetitions matter. */
  lemma OrderIndependent(ty: Type, v: Value, ps: seq<Path>, qs: seq<Path>)
    requires forall p :: p in ps <==> p in qs
    ensures ClearAll(ty, v, ps) == ClearAll(ty, v, qs)
  {
    ClearAllAbsorbs(ty, v, ps, qs);
    ClearAllAbsorbs(ty, v, qs, ps);
    ClearAllCommute(ty, v, ps, qs);
  }

  /** Clearing the whole list again changes nothing. */
  lemma ClearAllIdempotent(ty: Type, v: Value, ps: seq<Path>)
    ensures ClearAll(ty, ClearAll(ty, v, ps), ps) == ClearAll(ty, v, ps)
  {
    ClearAllAbsorbs(ty, v, ps, ps);
  }
}
