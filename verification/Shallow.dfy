/** Which paths change nothing, and which change nothing behind a reference, in values
    that other paths have cleared: told from the type and the paths, exactly. */
module Shallow {
  import opened PathSyntax
  import opened Values
  import opened PathClear
  import opened Memory

  // ----- values that paths have cleared -----

  /** The paths leave the value alone. The empty path stands for the whole value. */
  ghost predicate Fixed(ty: Type, v: Value, es: set<Path>) {
    forall e | e in es :: Touch(true, ty, v, e) == v
  }

  // How the paths go on in a field, under a key, at an index.

  ghost function InField(fs: seq<Field>, es: set<Path>, i: nat): set<Path> {
    set e | e in es && e != [] && FieldHit(fs, e[0], i) :: e[1..]
  }

  ghost function InEntry(es: set<Path>, k: string): set<Path> {
    set e | e in es && e != [] && KeyHit(e[0], k) :: e[1..]
  }

  ghost function InElem(es: set<Path>, i: nat): set<Path> {
    set e | e in es && e != [] && IndexHit(e[0], i) :: e[1..]
  }

  lemma FixedField(fs: seq<Field>, v: Value, es: set<Path>, i: nat)
    requires HasType(v, StructT(fs)) && Fixed(StructT(fs), v, es) && [] !in es && i < |fs|
    ensures Fixed(fs[i].ty, v.fields[i], InField(fs, es, i))
  {
    forall r | r in InField(fs, es, i) ensures Touch(true, fs[i].ty, v.fields[i], r) == v.fields[i] {
      var e :| e in es && e != [] && FieldHit(fs, e[0], i) && e[1..] == r;
      assert ClearIn(StructT(fs), v, e) == Touch(true, StructT(fs), v, e) == v;
    }
  }

  lemma FixedEntry(ty: Type, v: Value, es: set<Path>, k: string)
    requires HasType(v, MapT(ty)) && Fixed(MapT(ty), v, es) && [] !in es && v.Map? && k in v.entries
    ensures Fixed(ty, v.entries[k], InEntry(es, k))
  {
    forall r | r in InEntry(es, k) ensures Touch(true, ty, v.entries[k], r) == v.entries[k] {
      var e :| e in es && e != [] && KeyHit(e[0], k) && e[1..] == r;
      assert ClearIn(MapT(ty), v, e) == Touch(true, MapT(ty), v, e) == v;
    }
  }

  /** A slice or an array. */
  predicate ListOf(ty: Type, e: Type) {
    ty == SliceT(e) || (ty.ArrayT? && ty.elem == e)
  }

  lemma ClearOfList(ty: Type, e: Type, v: Value, p: Path)
    requires ListOf(ty, e) && p != []
    ensures Touch(true, ty, v, p) == ClearElems(e, v, p)
  {
    assert Touch(true, ty, v, p) == Clear(ty, v, p) == ClearIn(ty, v, p) == ClearElems(e, v, p);
  }

  lemma FixedElem(ty: Type, e: Type, v: Value, es: set<Path>, i: nat)
    requires ListOf(ty, e) && Fixed(ty, v, es) && [] !in es && v.List? && i < |v.elems|
    ensures Fixed(e, v.elems[i], InElem(es, i))
  {
    forall r | r in InElem(es, i) ensures Touch(true, e, v.elems[i], r) == v.elems[i] {
      var p :| p in es && p != [] && IndexHit(p[0], i) && p[1..] == r;
      ClearOfList(ty, e, v, p);
      assert ClearElems(e, v, p).elems[i] == v.elems[i];
    }
  }

  lemma FixedPointee(e: Type, v: Value, es: set<Path>)
    requires !e.PtrT? && Fixed(PtrT(e), Ptr(v), es) && [] !in es
    ensures Fixed(e, v, es)
  {
    forall p | p in es ensures Touch(true, e, v, p) == v {
      assert Touch(true, PtrT(e), Ptr(v), p) == Ptr(ClearIn(e, v, p));
    }
  }

  // ----- types whose only cleared value is zero -----

  ghost predicate AllZero(ty: Type, es: set<Path>)
    decreases ty
  {
    [] in es ||
    match ty
    case StructT(fs) => forall i | 0 <= i < |fs| :: AllZero(fs[i].ty, InField(fs, es, i))
    case ArrayT(n, e) => forall i | 0 <= i < n :: AllZero(e, InElem(es, i))
    case _ => false
  }

  lemma {:induction false} AllZeroIsZero(ty: Type, es: set<Path>, v: Value)
    requires AllZero(ty, es) && HasType(v, ty) && Fixed(ty, v, es)
    ensures v == Zero(ty)
    decreases ty
  {
    if [] in es {
      assert Touch(true, ty, v, []) == v;
    } else {
      match ty
      case StructT(fs) =>
        forall i | 0 <= i < |fs| ensures v.fields[i] == Zero(ty).fields[i] {
          FixedField(fs, v, es, i);
          AllZeroIsZero(fs[i].ty, InField(fs, es, i), v.fields[i]);
        }
        assert v.fields == Zero(ty).fields;
      case ArrayT(n, e) =>
        forall i | 0 <= i < n ensures v.elems[i] == Zero(ty).elems[i] {
          FixedElem(ty, e, v, es, i);
          AllZeroIsZero(e, InElem(es, i), v.elems[i]);
        }
        assert v.elems == Zero(ty).elems;
    }
  }

  /** The zero struct but for one field, the zero list but for one element. */
  function With(fs: seq<Field>, i: nat, x: Value): Value {
    Struct(seq(|fs|, j requires 0 <= j < |fs| => if j == i then x else Zero(fs[j].ty)))
  }

  function ListWith(e: Type, n: nat, i: nat, x: Value): Value {
    List(seq(n, j requires 0 <= j < n => if j == i then x else Zero(e)))
  }

  lemma WithFixed(fs: seq<Field>, i: nat, x: Value, es: set<Path>)
    requires i < |fs| && HasType(x, fs[i].ty) && Fixed(fs[i].ty, x, InField(fs, es, i)) && [] !in es
    ensures HasType(With(fs, i, x), StructT(fs)) && Fixed(StructT(fs), With(fs, i, x), es)
  {
    var v := With(fs, i, x);
    forall j | 0 <= j < |fs| ensures HasType(v.fields[j], fs[j].ty) {
      ZeroTyped(fs[j].ty);
    }
    forall e | e in es ensures Touch(true, StructT(fs), v, e) == v {
      forall j | 0 <= j < |fs| ensures ClearIn(StructT(fs), v, e).fields[j] == v.fields[j] {
        ZeroStays(fs[j].ty, e[1..]);
        assert FieldHit(fs, e[0], i) ==> e[1..] in InField(fs, es, i);
      }
      assert ClearIn(StructT(fs), v, e).fields == v.fields;
    }
  }

  lemma ListWithFixed(ty: Type, e: Type, n: nat, i: nat, x: Value, es: set<Path>)
    requires ListOf(ty, e) && i < n && HasType(x, e) && Fixed(e, x, InElem(es, i)) && [] !in es
    ensures Fixed(ty, ListWith(e, n, i, x), es) && forall j | 0 <= j < n :: HasType(ListWith(e, n, i, x).elems[j], e)
  {
    var v := ListWith(e, n, i, x);
    ZeroTyped(e);
    forall p | p in es ensures Touch(true, ty, v, p) == v {
      ClearOfList(ty, e, v, p);
      ZeroStays(e, p[1..]);
      forall j | 0 <= j < n ensures ClearElems(e, v, p).elems[j] == v.elems[j] {
        assert IndexHit(p[0], i) ==> p[1..] in InElem(es, i);
      }
      assert ClearElems(e, v, p).elems == v.elems;
    }
  }

  lemma EmptyFixed(ty: Type, es: set<Path>, v: Value)
    requires [] !in es
    requires match ty
             case PrimT(_) => v.Prim?
             case SliceT(_) => v == List([])
             case MapT(_) => v == Map(map[])
             case PtrT(e) => v == Ptr(Zero(e))
             case _ => false
    ensures Fixed(ty, v, es)
  {
    forall p | p in es ensures Touch(true, ty, v, p) == v {
      match ty
      case SliceT(e) => ClearOfList(ty, e, v, p);
      case MapT(_) =>
        assert ClearIn(ty, v, p).entries == v.entries;
        assert Touch(true, ty, v, p) == Clear(ty, v, p) == ClearIn(ty, v, p);
      case PtrT(e) =>
        ZeroStays(e, p);
        assert Touch(true, ty, v, p) == Ptr(ClearIn(e, Zero(e), p));
        assert ClearIn(e, Zero(e), p) == if e.PtrT? then Nil else Clear(e, Zero(e), p);
      case PrimT(_) =>
        assert Touch(true, ty, v, p) == Clear(ty, v, p) == ClearIn(ty, v, p);
    }
  }

  lemma {:induction false} NonZero(ty: Type, es: set<Path>) returns (v: Value)
    requires !AllZero(ty, es)
    ensures HasType(v, ty) && Fixed(ty, v, es) && v != Zero(ty)
    decreases ty
  {
    match ty
    case PrimT(z) =>
      v := Prim(z + "x");
      assert |z + "x"| != |z|;
      EmptyFixed(ty, es, v);
    case StructT(fs) =>
      var i :| 0 <= i < |fs| && !AllZero(fs[i].ty, InField(fs, es, i));
      var x := NonZero(fs[i].ty, InField(fs, es, i));
      v := With(fs, i, x);
      WithFixed(fs, i, x, es);
      assert v.fields[i] != Zero(ty).fields[i];
    case PtrT(e) =>
      ZeroTyped(e);
      v := Ptr(Zero(e));
      EmptyFixed(ty, es, v);
    case SliceT(_) =>
      v := List([]);
      EmptyFixed(ty, es, v);
    case ArrayT(n, e) =>
      var i :| 0 <= i < n && !AllZero(e, InElem(es, i));
      var x := NonZero(e, InElem(es, i));
      v := ListWith(e, n, i, x);
      ListWithFixed(ty, e, n, i, x, es);
      assert v.elems[i] != Zero(ty).elems[i];
    case MapT(_) =>
      v := Map(map[]);
      EmptyFixed(ty, es, v);
  }

  // ----- paths that change nothing -----

  /** No value that the paths `es` have cleared is changed by the path. */
  ghost predicate Quiet(ty: Type, es: set<Path>, rest: Path)
    decreases ty, 1
  {
    [] in es ||
    (if rest == [] then AllZero(ty, es) else if ty.PtrT? then QuietIn(ty.elem, es, rest) else QuietIn(ty, es, rest))
  }

  ghost predicate QuietIn(ty: Type, es: set<Path>, rest: Path)
    requires rest != []
    decreases ty, 0
  {
    match ty
    case StructT(fs) => forall i | 0 <= i < |fs| && FieldHit(fs, rest[0], i) :: Quiet(fs[i].ty, InField(fs, es, i), rest[1..])
    case MapT(e) => forall k | KeyHit(rest[0], k) :: Quiet(e, InEntry(es, k), rest[1..])
    case SliceT(e) => forall i: nat | IndexHit(rest[0], i) :: Quiet(e, InElem(es, i), rest[1..])
    case ArrayT(n, e) => forall i: nat | i < n && IndexHit(rest[0], i) :: Quiet(e, InElem(es, i), rest[1..])
    case _ => true
  }

  lemma {:induction false} QuietChangesNothing(ty: Type, es: set<Path>, rest: Path, v: Value)
    requires Quiet(ty, es, rest) && HasType(v, ty) && Fixed(ty, v, es)
    ensures Touch(true, ty, v, rest) == v
    decreases ty, 1
  {
    if [] in es {
      assert Touch(true, ty, v, []) == v;
      ZeroStays(ty, rest);
    } else if rest == [] {
      AllZeroIsZero(ty, es, v);
    } else if ty.PtrT? {
      if v.Ptr? && !ty.elem.PtrT? {
        FixedPointee(ty.elem, v.pointee, es);
        QuietChangesNothingIn(ty.elem, es, rest, v.pointee);
      } else if v.Ptr? {
        assert ClearIn(ty.elem, v.pointee, rest) == v.pointee;
      }
    } else {
      QuietChangesNothingIn(ty, es, rest, v);
    }
  }

  lemma {:induction false} QuietChangesNothingIn(ty: Type, es: set<Path>, rest: Path, v: Value)
    requires rest != [] && [] !in es && QuietIn(ty, es, rest) && HasType(v, ty) && Fixed(ty, v, es)
    ensures ClearIn(ty, v, rest) == v
    decreases ty, 0
  {
    match ty
    case StructT(fs) =>
      forall i | 0 <= i < |fs| ensures ClearIn(ty, v, rest).fields[i] == v.fields[i] {
        if FieldHit(fs, rest[0], i) {
          FixedField(fs, v, es, i);
          QuietChangesNothing(fs[i].ty, InField(fs, es, i), rest[1..], v.fields[i]);
        }
      }
      assert ClearIn(ty, v, rest).fields == v.fields;
    case MapT(e) =>
      if v.Map? {
        forall k | k in v.entries ensures ClearIn(ty, v, rest).entries[k] == v.entries[k] {
          if KeyHit(rest[0], k) {
            FixedEntry(e, v, es, k);
            QuietChangesNothing(e, InEntry(es, k), rest[1..], v.entries[k]);
          }
        }
        assert ClearIn(ty, v, rest).entries == v.entries;
      }
    case SliceT(e) => QuietElems(ty, e, es, rest, v);
    case ArrayT(_, e) => QuietElems(ty, e, es, rest, v);
    case _ =>
  }

  lemma {:induction false} QuietElems(ty: Type, e: Type, es: set<Path>, rest: Path, v: Value)
    requires rest != [] && [] !in es && ListOf(ty, e) && QuietIn(ty, es, rest) && HasType(v, ty) && Fixed(ty, v, es)
    ensures ClearElems(e, v, rest) == v
    decreases e, 2
  {
    if v.List? {
      forall i | 0 <= i < |v.elems| ensures ClearElems(e, v, rest).elems[i] == v.elems[i] {
        if IndexHit(rest[0], i) {
          FixedElem(ty, e, v, es, i);
          QuietChangesNothing(e, InElem(es, i), rest[1..], v.elems[i]);
        }
      }
      assert ClearElems(e, v, rest).elems == v.elems;
    }
  }

  /** A cleared value that the path changes, if it changes any. */
  lemma {:induction false} Changed(ty: Type, es: set<Path>, rest: Path) returns (v: Value)
    requires !Quiet(ty, es, rest)
    ensures HasType(v, ty) && Fixed(ty, v, es) && Touch(true, ty, v, rest) != v
    decreases ty, 1
  {
    if rest == [] {
      v := NonZero(ty, es);
    } else if ty.PtrT? {
      var x := ChangedIn(ty.elem, es, rest);
      v := Ptr(x);
      forall p | p in es ensures Touch(true, ty, v, p) == v {
        assert Touch(true, ty.elem, x, p) == x;
      }
    } else {
      v := ChangedIn(ty, es, rest);
    }
  }

  lemma {:induction false} ChangedIn(ty: Type, es: set<Path>, rest: Path) returns (v: Value)
    requires rest != [] && [] !in es && !QuietIn(ty, es, rest)
    ensures !ty.PtrT? && HasType(v, ty) && Fixed(ty, v, es) && ClearIn(ty, v, rest) != v
    decreases ty, 0
  {
    match ty
    case StructT(fs) =>
      var i :| 0 <= i < |fs| && FieldHit(fs, rest[0], i) && !Quiet(fs[i].ty, InField(fs, es, i), rest[1..]);
      var x := Changed(fs[i].ty, InField(fs, es, i), rest[1..]);
      v := With(fs, i, x);
      WithFixed(fs, i, x, es);
      assert ClearIn(ty, v, rest).fields[i] != v.fields[i];
    case MapT(e) =>
      var k :| KeyHit(rest[0], k) && !Quiet(e, InEntry(es, k), rest[1..]);
      var x := Changed(e, InEntry(es, k), rest[1..]);
      v := Map(map[k := x]);
      EntryFixed(e, k, x, es);
      assert ClearIn(ty, v, rest).entries[k] != v.entries[k];
    case SliceT(e) =>
      var i: nat :| IndexHit(rest[0], i) && !Quiet(e, InElem(es, i), rest[1..]);
      v := ChangedList(ty, e, es, rest, i + 1, i);
    case ArrayT(n, e) =>
      var i: nat :| i < n && IndexHit(rest[0], i) && !Quiet(e, InElem(es, i), rest[1..]);
      v := ChangedList(ty, e, es, rest, n, i);
  }

  lemma {:induction false} ChangedList(ty: Type, e: Type, es: set<Path>, rest: Path, n: nat, i: nat) returns (v: Value)
    requires rest != [] && [] !in es && ListOf(ty, e) && i < n && IndexHit(rest[0], i) && !Quiet(e, InElem(es, i), rest[1..])
    ensures v.List? && |v.elems| == n && forall j | 0 <= j < n :: HasType(v.elems[j], e)
    ensures Fixed(ty, v, es) && ClearElems(e, v, rest) != v
    decreases e, 2
  {
    var x := Changed(e, InElem(es, i), rest[1..]);
    v := ListWith(e, n, i, x);
    ListWithFixed(ty, e, n, i, x, es);
    assert ClearElems(e, v, rest).elems[i] != v.elems[i];
  }

  lemma EntryFixed(e: Type, k: string, x: Value, es: set<Path>)
    requires [] !in es && Fixed(e, x, InEntry(es, k))
    ensures Fixed(MapT(e), Map(map[k := x]), es)
  {
    var v := Map(map[k := x]);
    forall p | p in es ensures Touch(true, MapT(e), v, p) == v {
      assert KeyHit(p[0], k) ==> p[1..] in InEntry(es, k);
      assert ClearIn(MapT(e), v, p).entries == v.entries;
    }
  }

  /** The condition is exact. */
  lemma QuietExactly(ty: Type, es: set<Path>, rest: Path)
    ensures Quiet(ty, es, rest) <==> forall v | HasType(v, ty) && Fixed(ty, v, es) :: Touch(true, ty, v, rest) == v
  {
    if Quiet(ty, es, rest) {
      forall v | HasType(v, ty) && Fixed(ty, v, es) ensures Touch(true, ty, v, rest) == v {
        QuietChangesNothing(ty, es, rest, v);
      }
    } else {
      var v := Changed(ty, es, rest);
      assert HasType(v, ty) && Fixed(ty, v, es) && Touch(true, ty, v, rest) != v;
    }
  }

  // ----- tight by-value parts -----

  /** A by-value part all of whose references lead somewhere. */
  predicate Tight(c: Cell, pos: Position, m: Objects) {
    match c
    case Held => pos in m && m[pos] != Nil
    case Rec(cs) => forall i | 0 <= i < |cs| :: Tight(cs[i], pos + [i], m)
    case Arr(cs) => forall i | 0 <= i < |cs| :: Tight(cs[i], pos + [i], m)
    case _ => true
  }

  lemma {:induction false} ZeroTight(ty: Type, pos: Position, m: Objects)
    ensures Tight(ZeroCell(ty), pos, m)
  {
    match ty
    case StructT(fs) =>
      forall i | 0 <= i < |fs| ensures Tight(ZeroCell(fs[i].ty), pos + [i], m) {
        ZeroTight(fs[i].ty, pos + [i], m);
      }
    case ArrayT(n, e) =>
      forall i | 0 <= i < n ensures Tight(ZeroCell(e), pos + [i], m) {
        ZeroTight(e, pos + [i], m);
      }
    case _ =>
  }

  /** Where the whole value is left alone, so is a tight by-value part. */
  lemma {:induction false} FixedCell(ty: Type, c: Cell, pos: Position, m: Objects, e: Path)
    requires Fits(ty, c) && Tight(c, pos, m) && Touch(true, ty, Load(c, pos, m), e) == Load(c, pos, m)
    ensures TouchCell(true, ty, c, e) == c
    decreases ty, 1
  {
    match ty
    case StructT(fs) => FixedRec(fs, c, pos, m, e);
    case ArrayT(n, t) => FixedArr(n, t, c, pos, m, e);
    case PrimT(_) =>
    case _ =>
  }

  lemma {:induction false} FixedRec(fs: seq<Field>, c: Cell, pos: Position, m: Objects, e: Path)
    requires var ty := StructT(fs);
             Fits(ty, c) && Tight(c, pos, m) && Touch(true, ty, Load(c, pos, m), e) == Load(c, pos, m)
    ensures TouchCell(true, StructT(fs), c, e) == c
    decreases StructT(fs), 0
  {
    var ty := StructT(fs);
    var v := Load(c, pos, m);
    if e == [] {
      forall i | 0 <= i < |fs| ensures ZeroCell(fs[i].ty) == c.fields[i] {
        assert v.fields[i] == Zero(ty).fields[i] == Zero(fs[i].ty);
        FixedCell(fs[i].ty, c.fields[i], pos + [i], m, []);
      }
      assert ZeroCell(ty).fields == c.fields;
    } else {
      assert ClearIn(ty, v, e) == v;
      forall i | 0 <= i < |fs| ensures TouchCell(FieldHit(fs, e[0], i), fs[i].ty, c.fields[i], e[1..]) == c.fields[i] {
        if FieldHit(fs, e[0], i) {
          assert Touch(true, fs[i].ty, v.fields[i], e[1..]) == ClearIn(ty, v, e).fields[i];
          FixedCell(fs[i].ty, c.fields[i], pos + [i], m, e[1..]);
        }
      }
      assert ClearCell(ty, c, e).fields == c.fields;
    }
  }

  lemma {:induction false} FixedArr(n: nat, t: Type, c: Cell, pos: Position, m: Objects, e: Path)
    requires var ty := ArrayT(n, t);
             Fits(ty, c) && Tight(c, pos, m) && Touch(true, ty, Load(c, pos, m), e) == Load(c, pos, m)
    ensures TouchCell(true, ArrayT(n, t), c, e) == c
    decreases ArrayT(n, t), 0
  {
    var ty := ArrayT(n, t);
    var v := Load(c, pos, m);
    if e == [] {
      forall i | 0 <= i < n ensures ZeroCell(t) == c.elems[i] {
        assert v.elems[i] == Zero(ty).elems[i] == Zero(t);
        FixedCell(t, c.elems[i], pos + [i], m, []);
      }
      assert ZeroCell(ty).elems == c.elems;
    } else {
      ClearOfArray(n, t, v, e);
      forall i | 0 <= i < n ensures TouchCell(IndexHit(e[0], i), t, c.elems[i], e[1..]) == c.elems[i] {
        if IndexHit(e[0], i) {
          assert Touch(true, t, v.elems[i], e[1..]) == ClearElems(t, v, e).elems[i];
          FixedCell(t, c.elems[i], pos + [i], m, e[1..]);
        }
      }
      assert ClearCell(ty, c, e).elems == c.elems;
    }
  }

  // ----- by-value parts that paths have cleared -----

  /** The paths leave the by-value part alone. */
  ghost predicate Cut(ty: Type, x: Cell, cs: set<Path>) {
    forall e | e in cs :: TouchCell(true, ty, x, e) == x
  }

  lemma CutField(fs: seq<Field>, x: Cell, cs: set<Path>, i: nat)
    requires Fits(StructT(fs), x) && Cut(StructT(fs), x, cs) && [] !in cs && i < |fs|
    ensures Cut(fs[i].ty, x.fields[i], InField(fs, cs, i))
  {
    forall r | r in InField(fs, cs, i) ensures TouchCell(true, fs[i].ty, x.fields[i], r) == x.fields[i] {
      var e :| e in cs && e != [] && FieldHit(fs, e[0], i) && e[1..] == r;
      assert ClearCell(StructT(fs), x, e).fields[i] == x.fields[i];
    }
  }

  lemma CutElem(n: nat, t: Type, x: Cell, cs: set<Path>, i: nat)
    requires Fits(ArrayT(n, t), x) && Cut(ArrayT(n, t), x, cs) && [] !in cs && i < n
    ensures Cut(t, x.elems[i], InElem(cs, i))
  {
    forall r | r in InElem(cs, i) ensures TouchCell(true, t, x.elems[i], r) == x.elems[i] {
      var e :| e in cs && e != [] && IndexHit(e[0], i) && e[1..] == r;
      assert ClearCell(ArrayT(n, t), x, e).elems[i] == x.elems[i];
    }
  }

  lemma ZeroCellStays(ty: Type, e: Path)
    ensures TouchCell(true, ty, ZeroCell(ty), e) == ZeroCell(ty)
  {
    ZeroFits(ty);
    ZeroTight(ty, [], map[]);
    LoadZero(ty, [], map[]);
    ZeroStays(ty, e);
    FixedCell(ty, ZeroCell(ty), [], map[], e);
  }

  /** A by-value part stays cleared of a path, and clearing the path makes it so. */
  lemma {:induction false} CutStays(ty: Type, x: Cell, hit: bool, a: Path, e: Path)
    requires Fits(ty, x) && ((hit && a == e) || TouchCell(true, ty, x, e) == x)
    ensures TouchCell(true, ty, TouchCell(hit, ty, x, a), e) == TouchCell(hit, ty, x, a)
    decreases ty
  {
    if hit {
      ZeroCellStays(ty, e);
      ZeroCellStays(ty, a);
      if a != [] && e != [] {
        var y := ClearCell(ty, x, a);
        match ty
        case StructT(fs) =>
          forall i | 0 <= i < |fs| ensures ClearCell(ty, y, e).fields[i] == y.fields[i] {
            if FieldHit(fs, e[0], i) {
              assert a == e || ClearCell(ty, x, e).fields[i] == x.fields[i];
              CutStays(fs[i].ty, x.fields[i], FieldHit(fs, a[0], i), a[1..], e[1..]);
            }
          }
          assert ClearCell(ty, y, e).fields == y.fields;
        case ArrayT(n, t) =>
          forall i | 0 <= i < n ensures ClearCell(ty, y, e).elems[i] == y.elems[i] {
            if IndexHit(e[0], i) {
              assert a == e || ClearCell(ty, x, e).elems[i] == x.elems[i];
              CutStays(t, x.elems[i], IndexHit(a[0], i), a[1..], e[1..]);
            }
          }
          assert ClearCell(ty, y, e).elems == y.elems;
        case _ =>
      }
    }
  }

  // ----- paths that change nothing behind a reference -----

  /** In values that the paths `es` have cleared, the path changes at most the by-value
      part: where it goes on behind a reference it changes nothing there, or the paths
      `cs` have removed the reference. */
  ghost predicate IsShallow(ty: Type, es: set<Path>, cs: set<Path>, parts: Path)
    decreases ty
  {
    parts == [] || [] in es || [] in cs ||
    match ty
    case PrimT(_) => true
    case StructT(fs) =>
      forall i | 0 <= i < |fs| && FieldHit(fs, parts[0], i) :: IsShallow(fs[i].ty, InField(fs, es, i), InField(fs, cs, i), parts[1..])
    case ArrayT(n, e) => forall i: nat | i < n && IndexHit(parts[0], i) :: IsShallow(e, InElem(es, i), InElem(cs, i), parts[1..])
    case _ => Quiet(ty, es, parts)
  }

  /** Clearing a shallow path from any holder that has been cleared of `cs` changes no
      value that shares its objects and has been cleared of `es`. */
  lemma {:induction false} ShallowSpares(ty: Type, es: set<Path>, cs: set<Path>, x: Cell, parts: Path, v: Value)
    requires IsShallow(ty, es, cs, parts) && Fits(ty, x) && Cut(ty, x, cs) && HasType(v, ty) && Fixed(ty, v, es)
    ensures Beyond(ty, x, parts, v) == v
    decreases ty
  {
    if [] in es {
      assert Touch(true, ty, v, []) == v;
      BeyondZero(ty, x, parts);
    } else if [] in cs {
      assert x == ZeroCell(ty);
      BeyondBlank(ty, parts, v);
    } else if parts != [] {
      match ty
      case StructT(fs) =>
        forall i | 0 <= i < |fs| ensures Beyond(ty, x, parts, v).fields[i] == v.fields[i] {
          if FieldHit(fs, parts[0], i) {
            FixedField(fs, v, es, i);
            CutField(fs, x, cs, i);
            ShallowSpares(fs[i].ty, InField(fs, es, i), InField(fs, cs, i), x.fields[i], parts[1..], v.fields[i]);
          }
        }
      case ArrayT(n, e) =>
        forall i | 0 <= i < n ensures Beyond(ty, x, parts, v).elems[i] == v.elems[i] {
          if IndexHit(parts[0], i) {
            FixedElem(ty, e, v, es, i);
            CutElem(n, e, x, cs, i);
            ShallowSpares(e, InElem(es, i), InElem(cs, i), x.elems[i], parts[1..], v.elems[i]);
          }
        }
      case PrimT(_) =>
      case _ =>
        if x.Held? {
          QuietChangesNothing(ty, es, parts, v);
        }
    }
  }

  predicate HeldAt(c: Cell, q: Position)
    decreases |q|
  {
    match c
    case Held => q == []
    case Rec(cs) => q != [] && q[0] < |cs| && HeldAt(cs[q[0]], q[1..])
    case Arr(cs) => q != [] && q[0] < |cs| && HeldAt(cs[q[0]], q[1..])
    case _ => false
  }

  lemma {:induction false} ReachesHeld(ty: Type, c: Cell, parts: Path, q: Position)
    requires Reaches(ty, c, parts, q).Some?
    ensures HeldAt(c, q)
    decreases |q|
  {
    if !c.Held? {
      match ty
      case StructT(fs) => ReachesHeld(fs[q[0]].ty, c.fields[q[0]], parts[1..], q[1..]);
      case ArrayT(_, e) => ReachesHeld(e, c.elems[q[0]], parts[1..], q[1..]);
    }
  }

  /** What a reference leads to can be told from the whole value. */
  lemma {:induction false} HeldShows(c: Cell, q: Position, pos: Position, m: Objects, m': Objects)
    requires HeldAt(c, q) && pos + q in m && pos + q in m' && m[pos + q] != m'[pos + q]
    ensures Load(c, pos, m) != Load(c, pos, m')
    decreases |q|
  {
    if q == [] {
      assert pos + q == pos;
    } else {
      assert pos + [q[0]] + q[1..] == pos + q;
      match c
      case Rec(cs) =>
        HeldShows(cs[q[0]], q[1..], pos + [q[0]], m, m');
        assert Load(c, pos, m).fields[q[0]] != Load(c, pos, m').fields[q[0]];
      case Arr(cs) =>
        HeldShows(cs[q[0]], q[1..], pos + [q[0]], m, m');
        assert Load(c, pos, m).elems[q[0]] != Load(c, pos, m').elems[q[0]];
    }
  }

  /** Where the whole value is left alone, so are its objects. */
  lemma FixedObjects(ty: Type, c: Cell, m: Objects, e: Path)
    requires Fits(ty, c) && Touch(true, ty, Load(c, [], m), e) == Load(c, [], m) && e != []
    ensures ClearObjects(ty, c, e, m) == m
  {
    var m', v := ClearObjects(ty, c, e, m), Load(c, [], m);
    ClearedHere(ty, c, e, m);
    SharedClear(ty, c, c, e, [], m, m');
    BeyondCleared(ty, c, e, v);
    forall q | q in m ensures m'[q] == m[q] {
      if Reaches(ty, c, e, q).Some? && m'[q] != m[q] {
        ReachesHeld(ty, c, e, q);
        assert [] + q == q;
        HeldShows(c, q, [], m, m');
      }
    }
  }

  /** With `v` behind the reference at `q`, the value is cleared of `es` and not of
      `parts`, and its by-value part is cleared of `cs`. */
  ghost predicate DeepIn(ty: Type, es: set<Path>, cs: set<Path>, parts: Path, pos: Position, c: Cell, q: Position, v: Value) {
    var m := map[pos + q := v];
    && Fits(ty, c) && Cut(ty, c, cs) && Tight(c, pos, m) && HasType(Load(c, pos, m), ty) && Fixed(ty, Load(c, pos, m), es)
    && var errand := Reaches(ty, c, parts, q);
       errand.Some? && HasType(v, errand.value.ty) && Clear(errand.value.ty, v, errand.value.rest) != v
  }

  function RecWith(fs: seq<Field>, i: nat, x: Cell): Cell {
    Rec(seq(|fs|, j requires 0 <= j < |fs| => if j == i then x else ZeroCell(fs[j].ty)))
  }

  function ArrWith(e: Type, n: nat, i: nat, x: Cell): Cell {
    Arr(seq(n, j requires 0 <= j < n => if j == i then x else ZeroCell(e)))
  }

  lemma RecWithLoads(fs: seq<Field>, i: nat, x: Cell, pos: Position, m: Objects)
    requires i < |fs| && Fits(fs[i].ty, x) && Tight(x, pos + [i], m)
    ensures Load(RecWith(fs, i, x), pos, m) == With(fs, i, Load(x, pos + [i], m))
    ensures Fits(StructT(fs), RecWith(fs, i, x)) && Tight(RecWith(fs, i, x), pos, m)
  {
    var c := RecWith(fs, i, x);
    forall j | 0 <= j < |fs|
      ensures Fits(fs[j].ty, c.fields[j]) && Tight(c.fields[j], pos + [j], m)
      ensures Load(c, pos, m).fields[j] == With(fs, i, Load(x, pos + [i], m)).fields[j]
    {
      ZeroFits(fs[j].ty);
      ZeroTight(fs[j].ty, pos + [j], m);
      LoadZero(fs[j].ty, pos + [j], m);
    }
    assert Load(c, pos, m).fields == With(fs, i, Load(x, pos + [i], m)).fields;
  }

  lemma ArrWithLoads(e: Type, n: nat, i: nat, x: Cell, pos: Position, m: Objects)
    requires i < n && Fits(e, x) && Tight(x, pos + [i], m)
    ensures Load(ArrWith(e, n, i, x), pos, m) == ListWith(e, n, i, Load(x, pos + [i], m))
    ensures Fits(ArrayT(n, e), ArrWith(e, n, i, x)) && Tight(ArrWith(e, n, i, x), pos, m)
  {
    var c := ArrWith(e, n, i, x);
    ZeroFits(e);
    forall j | 0 <= j < n
      ensures Tight(c.elems[j], pos + [j], m)
      ensures Load(c, pos, m).elems[j] == ListWith(e, n, i, Load(x, pos + [i], m)).elems[j]
    {
      ZeroTight(e, pos + [j], m);
      LoadZero(e, pos + [j], m);
    }
    assert Load(c, pos, m).elems == ListWith(e, n, i, Load(x, pos + [i], m)).elems;
  }

  lemma RecWithCut(fs: seq<Field>, i: nat, x: Cell, cs: set<Path>)
    requires i < |fs| && Cut(fs[i].ty, x, InField(fs, cs, i)) && [] !in cs
    ensures Cut(StructT(fs), RecWith(fs, i, x), cs)
  {
    var c := RecWith(fs, i, x);
    forall e | e in cs ensures TouchCell(true, StructT(fs), c, e) == c {
      forall j | 0 <= j < |fs| ensures ClearCell(StructT(fs), c, e).fields[j] == c.fields[j] {
        ZeroCellStays(fs[j].ty, e[1..]);
        assert FieldHit(fs, e[0], i) ==> e[1..] in InField(fs, cs, i);
      }
      assert ClearCell(StructT(fs), c, e).fields == c.fields;
    }
  }

  lemma ArrWithCut(n: nat, t: Type, i: nat, x: Cell, cs: set<Path>)
    requires i < n && Cut(t, x, InElem(cs, i)) && [] !in cs
    ensures Cut(ArrayT(n, t), ArrWith(t, n, i, x), cs)
  {
    var c := ArrWith(t, n, i, x);
    forall e | e in cs ensures TouchCell(true, ArrayT(n, t), c, e) == c {
      forall j | 0 <= j < n ensures ClearCell(ArrayT(n, t), c, e).elems[j] == c.elems[j] {
        ZeroCellStays(t, e[1..]);
        assert IndexHit(e[0], i) ==> e[1..] in InElem(cs, i);
      }
      assert ClearCell(ArrayT(n, t), c, e).elems == c.elems;
    }
  }

  lemma DeepField(fs: seq<Field>, es: set<Path>, cs: set<Path>, parts: Path, pos: Position, i: nat, x: Cell, r: Position, v: Value)
    requires parts != [] && [] !in es && [] !in cs && i < |fs| && FieldHit(fs, parts[0], i)
    requires DeepIn(fs[i].ty, InField(fs, es, i), InField(fs, cs, i), parts[1..], pos + [i], x, r, v)
    ensures DeepIn(StructT(fs), es, cs, parts, pos, RecWith(fs, i, x), [i] + r, v)
  {
    var m := map[pos + ([i] + r) := v];
    assert ([i] + r)[1..] == r && pos + [i] + r == pos + ([i] + r);
    RecWithLoads(fs, i, x, pos, m);
    WithFixed(fs, i, Load(x, pos + [i], m), es);
    RecWithCut(fs, i, x, cs);
  }

  lemma DeepElem(n: nat, e: Type, es: set<Path>, cs: set<Path>, parts: Path, pos: Position, i: nat, x: Cell, r: Position, v: Value)
    requires parts != [] && [] !in es && [] !in cs && i < n && IndexHit(parts[0], i)
    requires DeepIn(e, InElem(es, i), InElem(cs, i), parts[1..], pos + [i], x, r, v)
    ensures DeepIn(ArrayT(n, e), es, cs, parts, pos, ArrWith(e, n, i, x), [i] + r, v)
  {
    var m := map[pos + ([i] + r) := v];
    assert ([i] + r)[1..] == r && pos + [i] + r == pos + ([i] + r);
    ArrWithLoads(e, n, i, x, pos, m);
    ListWithFixed(ArrayT(n, e), e, n, i, Load(x, pos + [i], m), es);
    ArrWithCut(n, e, i, x, cs);
  }

  /** Where a path that is not shallow goes on behind a reference, and a value there that
      it changes. */
  lemma {:induction false} DeepAt(ty: Type, es: set<Path>, cs: set<Path>, parts: Path, pos: Position) returns (c: Cell, q: Position, v: Value)
    requires !IsShallow(ty, es, cs, parts)
    ensures DeepIn(ty, es, cs, parts, pos, c, q, v)
    decreases ty
  {
    match ty
    case StructT(fs) =>
      var i :| 0 <= i < |fs| && FieldHit(fs, parts[0], i) && !IsShallow(fs[i].ty, InField(fs, es, i), InField(fs, cs, i), parts[1..]);
      var x, r;
      x, r, v := DeepAt(fs[i].ty, InField(fs, es, i), InField(fs, cs, i), parts[1..], pos + [i]);
      c, q := RecWith(fs, i, x), [i] + r;
      DeepField(fs, es, cs, parts, pos, i, x, r, v);
    case ArrayT(n, e) =>
      var i: nat :| i < n && IndexHit(parts[0], i) && !IsShallow(e, InElem(es, i), InElem(cs, i), parts[1..]);
      var x, r;
      x, r, v := DeepAt(e, InElem(es, i), InElem(cs, i), parts[1..], pos + [i]);
      c, q := ArrWith(e, n, i, x), [i] + r;
      DeepElem(n, e, es, cs, parts, pos, i, x, r, v);
    case PtrT(_) => c, q, v := DeepHere(ty, es, cs, parts, pos);
    case SliceT(_) => c, q, v := DeepHere(ty, es, cs, parts, pos);
    case MapT(_) => c, q, v := DeepHere(ty, es, cs, parts, pos);
  }

  lemma DeepHere(ty: Type, es: set<Path>, cs: set<Path>, parts: Path, pos: Position) returns (c: Cell, q: Position, v: Value)
    requires (ty.PtrT? || ty.SliceT? || ty.MapT?) && parts != [] && [] !in cs && !Quiet(ty, es, parts)
    ensures DeepIn(ty, es, cs, parts, pos, c, q, v)
  {
    v := Changed(ty, es, parts);
    c, q := Held, [];
    ClearNil(ty, parts);
    assert pos + q == pos;
  }

  /** A value, cleared of `es`, its by-value part of `cs`, whose objects such a path
      changes visibly. */
  lemma Deep(ty: Type, es: set<Path>, cs: set<Path>, parts: Path) returns (c: Cell, m: Objects)
    requires !IsShallow(ty, es, cs, parts)
    ensures Fits(ty, c) && Cut(ty, c, cs) && Typed(ty, m) && Tight(c, [], m) && Fixed(ty, Load(c, [], m), es)
    ensures Load(c, [], ClearObjects(ty, c, parts, m)) != Load(c, [], m)
  {
    var q, v;
    c, q, v := DeepAt(ty, es, cs, parts, []);
    ReachesRef(ty, c, parts, q);
    ReachesHeld(ty, c, parts, q);
    m := map[q := v];
    assert [] + q == q;
    HeldShows(c, q, [], m, ClearObjects(ty, c, parts, m));
  }

  /** The condition is exact. */
  lemma ShallowExactly(ty: Type, es: set<Path>, cs: set<Path>, parts: Path)
    ensures IsShallow(ty, es, cs, parts) <==>
            forall x, v | Fits(ty, x) && Cut(ty, x, cs) && HasType(v, ty) && Fixed(ty, v, es) :: Beyond(ty, x, parts, v) == v
  {
    if IsShallow(ty, es, cs, parts) {
      forall x, v | Fits(ty, x) && Cut(ty, x, cs) && HasType(v, ty) && Fixed(ty, v, es) ensures Beyond(ty, x, parts, v) == v {
        ShallowSpares(ty, es, cs, x, parts, v);
      }
    } else {
      var c, m := Deep(ty, es, cs, parts);
      LoadTyped(ty, c, m);
      ClearedHere(ty, c, parts, m);
      SharedClear(ty, c, c, parts, [], m, ClearObjects(ty, c, parts, m));
      assert Fits(ty, c) && Cut(ty, c, cs) && Beyond(ty, c, parts, Load(c, [], m)) != Load(c, [], m);
    }
  }
}
