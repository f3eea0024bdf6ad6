/** Go memory as the poller shares it. A fetched value has a by-value part, which
    is copied when a struct is copied, and objects behind its references, which
    all copies share. A reference is known by the fetched value it belongs to and
    its position in the by-value part; what it leads to is a tree nobody else
    refers to. */
module Memory {
  import opened Text
  import opened PathSyntax
  import opened Values
  import opened PathClear
  import opened PathMatch

  type Position = seq<nat>

  /** What the references of one fetched value lead to. */
  type Objects = map<Position, Value>

  /** A by-value part: `Held` is a pointer, slice or map that is not nil. */
  datatype Cell = Flat(v: Value) | Rec(fields: seq<Cell>) | Arr(elems: seq<Cell>) | Held | Null

  predicate Fits(ty: Type, c: Cell)
    decreases ty
  {
    match ty
    case PrimT(_) => c.Flat? && c.v.Prim?
    case StructT(fs) => c.Rec? && |c.fields| == |fs| && forall i | 0 <= i < |fs| :: Fits(fs[i].ty, c.fields[i])
    case ArrayT(n, e) => c.Arr? && |c.elems| == n && forall i | 0 <= i < n :: Fits(e, c.elems[i])
    case _ => c.Held? || c.Null?
  }

  /** The whole value: the by-value part with its references followed. */
  function Load(c: Cell, pos: Position, m: Objects): Value {
    match c
    case Flat(v) => v
    case Rec(cs) => Struct(seq(|cs|, i requires 0 <= i < |cs| => Load(cs[i], pos + [i], m)))
    case Arr(cs) => List(seq(|cs|, i requires 0 <= i < |cs| => Load(cs[i], pos + [i], m)))
    case Held => if pos in m then m[pos] else Nil
    case Null => Nil
  }

  function ZeroCell(ty: Type): Cell {
    match ty
    case PrimT(z) => Flat(Prim(z))
    case StructT(fs) => Rec(seq(|fs|, i requires 0 <= i < |fs| => ZeroCell(fs[i].ty)))
    case ArrayT(n, e) => Arr(seq(n, _ => ZeroCell(e)))
    case _ => Null
  }

  // ----- clearing in place -----

  /** What clearing a path leaves of the by-value part. */
  function ClearCell(ty: Type, c: Cell, parts: Path): Cell
    decreases ty, 0
  {
    if parts == [] then c
    else match ty
      case StructT(fs) =>
        if c.Rec? && |c.fields| == |fs| then
          Rec(seq(|fs|, i requires 0 <= i < |fs| =>
            TouchCell(FieldHit(fs, parts[0], i), fs[i].ty, c.fields[i], parts[1..])))
        else c
      case ArrayT(_, e) =>
        if c.Arr? then
          Arr(seq(|c.elems|, i requires 0 <= i < |c.elems| =>
            TouchCell(IndexHit(parts[0], i), e, c.elems[i], parts[1..])))
        else c
      case _ => c
  }

  function TouchCell(hit: bool, ty: Type, c: Cell, rest: Path): Cell
    decreases ty, 1
  {
    if !hit then c else if rest == [] then ZeroCell(ty) else ClearCell(ty, c, rest)
  }

  datatype Errand = Errand(ty: Type, rest: Path)

  /** The path that clearing `parts` from `c` follows on from the reference at
      position `q`, if it gets there. */
  function Reaches(ty: Type, c: Cell, parts: Path, q: Position): Option<Errand>
    decreases ty
  {
    if parts == [] then None
    else if c.Held? then (if q == [] then Some(Errand(ty, parts)) else None)
    else if q == [] then None
    else match ty
      case StructT(fs) =>
        if c.Rec? && |c.fields| == |fs| && q[0] < |fs| && FieldHit(fs, parts[0], q[0])
        then Reaches(fs[q[0]].ty, c.fields[q[0]], parts[1..], q[1..]) else None
      case ArrayT(_, e) =>
        if c.Arr? && q[0] < |c.elems| && IndexHit(parts[0], q[0])
        then Reaches(e, c.elems[q[0]], parts[1..], q[1..]) else None
      case _ => None
  }

  function Perform(errand: Option<Errand>, v: Value): Value {
    match errand
    case None => v
    case Some(e) => Clear(e.ty, v, e.rest)
  }

  /** What clearing a path does to the objects behind the references. */
  function ClearObjects(ty: Type, c: Cell, parts: Path, m: Objects): Objects {
    map q | q in m :: Perform(Reaches(ty, c, parts, q), m[q])
  }

  // ----- types -----

  /** The type of the reference at position `q` of a by-value part. */
  function RefAt(ty: Type, q: Position): Option<Type>
    decreases |q|
  {
    match ty
    case PrimT(_) => None
    case StructT(fs) => if q != [] && q[0] < |fs| then RefAt(fs[q[0]].ty, q[1..]) else None
    case ArrayT(n, e) => if q != [] && q[0] < n then RefAt(e, q[1..]) else None
    case _ => if q == [] then Some(ty) else None
  }

  /** Every reference leads to a value of its type. */
  predicate Typed(ty: Type, m: Objects) {
    forall q | q in m && RefAt(ty, q).Some? :: HasType(m[q], RefAt(ty, q).value)
  }

  lemma {:induction false} ReachesRef(ty: Type, c: Cell, parts: Path, q: Position)
    requires Fits(ty, c) && Reaches(ty, c, parts, q).Some?
    ensures RefAt(ty, q) == Some(Reaches(ty, c, parts, q).value.ty)
    decreases ty
  {
    match ty
    case StructT(fs) => ReachesRef(fs[q[0]].ty, c.fields[q[0]], parts[1..], q[1..]);
    case ArrayT(_, e) => ReachesRef(e, c.elems[q[0]], parts[1..], q[1..]);
    case _ =>
  }

  /** Clearing keeps the types. */
  lemma ClearObjectsTyped(ty: Type, c: Cell, parts: Path, m: Objects)
    requires Fits(ty, c) && Typed(ty, m)
    ensures Typed(ty, ClearObjects(ty, c, parts, m))
  {
    forall q | q in m && RefAt(ty, q).Some? ensures HasType(ClearObjects(ty, c, parts, m)[q], RefAt(ty, q).value) {
      var errand := Reaches(ty, c, parts, q);
      if errand.Some? {
        ReachesRef(ty, c, parts, q);
        ClearTyped(errand.value.ty, m[q], errand.value.rest);
      }
    }
  }

  // ----- what is behind references under a position -----

  lemma {:induction false} ZeroFits(ty: Type)
    ensures Fits(ty, ZeroCell(ty))
  {
    match ty
    case StructT(fs) =>
      forall i | 0 <= i < |fs| ensures Fits(fs[i].ty, ZeroCell(fs[i].ty)) {
        ZeroFits(fs[i].ty);
      }
    case ArrayT(n, e) => ZeroFits(e);
    case _ =>
  }

  lemma {:induction false} LoadZero(ty: Type, pos: Position, m: Objects)
    ensures Load(ZeroCell(ty), pos, m) == Zero(ty)
    decreases ty
  {
    match ty
    case StructT(fs) =>
      forall i | 0 <= i < |fs| ensures Load(ZeroCell(fs[i].ty), pos + [i], m) == Zero(fs[i].ty) {
        LoadZero(fs[i].ty, pos + [i], m);
      }
    case ArrayT(n, e) =>
      forall i | 0 <= i < n ensures Load(ZeroCell(e), pos + [i], m) == Zero(e) {
        LoadZero(e, pos + [i], m);
      }
    case _ =>
  }

  lemma {:induction false} ClearFits(ty: Type, c: Cell, parts: Path)
    requires Fits(ty, c)
    ensures Fits(ty, ClearCell(ty, c, parts))
    decreases ty, 0
  {
    if parts != [] {
      match ty
      case StructT(fs) =>
        forall i | 0 <= i < |fs| ensures Fits(fs[i].ty, ClearCell(ty, c, parts).fields[i]) {
          TouchFits(FieldHit(fs, parts[0], i), fs[i].ty, c.fields[i], parts[1..]);
        }
      case ArrayT(n, e) =>
        forall i | 0 <= i < n ensures Fits(e, ClearCell(ty, c, parts).elems[i]) {
          TouchFits(IndexHit(parts[0], i), e, c.elems[i], parts[1..]);
        }
      case _ =>
    }
  }

  lemma {:induction false} TouchFits(hit: bool, ty: Type, c: Cell, rest: Path)
    requires Fits(ty, c)
    ensures Fits(ty, TouchCell(hit, ty, c, rest))
    decreases ty, 1
  {
    ZeroFits(ty);
    ClearFits(ty, c, rest);
  }

  /** `m'` is `m` after clearing `parts` from the cell `c` that sits at `pos`. */
  ghost predicate Cleared(ty: Type, c: Cell, parts: Path, pos: Position, m: Objects, m': Objects) {
    && m.Keys == m'.Keys
    && forall q: Position {:trigger pos + q} | pos + q in m :: m'[pos + q] == Perform(Reaches(ty, c, parts, q), m[pos + q])
  }

  lemma ClearedHere(ty: Type, c: Cell, parts: Path, m: Objects)
    ensures Cleared(ty, c, parts, [], m, ClearObjects(ty, c, parts, m))
  {
    forall q: Position | [] + q in m
      ensures ClearObjects(ty, c, parts, m)[[] + q] == Perform(Reaches(ty, c, parts, q), m[[] + q])
    {
      assert [] + q == q;
    }
  }

  lemma ClearedField(fs: seq<Field>, c: Cell, parts: Path, pos: Position, m: Objects, m': Objects, i: nat)
    requires parts != [] && Fits(StructT(fs), c) && i < |fs|
    requires Cleared(StructT(fs), c, parts, pos, m, m')
    ensures Cleared(fs[i].ty, c.fields[i], if FieldHit(fs, parts[0], i) then parts[1..] else [], pos + [i], m, m')
  {
    forall q: Position | pos + [i] + q in m
      ensures m'[pos + [i] + q] ==
              Perform(Reaches(fs[i].ty, c.fields[i], if FieldHit(fs, parts[0], i) then parts[1..] else [], q), m[pos + [i] + q])
    {
      assert pos + [i] + q == pos + ([i] + q) && ([i] + q)[1..] == q;
    }
  }

  lemma ClearedElem(n: nat, e: Type, c: Cell, parts: Path, pos: Position, m: Objects, m': Objects, i: nat)
    requires parts != [] && Fits(ArrayT(n, e), c) && i < n
    requires Cleared(ArrayT(n, e), c, parts, pos, m, m')
    ensures Cleared(e, c.elems[i], if IndexHit(parts[0], i) then parts[1..] else [], pos + [i], m, m')
  {
    forall q: Position | pos + [i] + q in m
      ensures m'[pos + [i] + q] ==
              Perform(Reaches(e, c.elems[i], if IndexHit(parts[0], i) then parts[1..] else [], q), m[pos + [i] + q])
    {
      assert pos + [i] + q == pos + ([i] + q) && ([i] + q)[1..] == q;
    }
  }

  lemma {:induction false} SameLoad(u: Cell, pos: Position, m: Objects, m': Objects)
    requires m.Keys == m'.Keys
    requires forall q: Position {:trigger pos + q} | pos + q in m :: m'[pos + q] == m[pos + q]
    ensures Load(u, pos, m') == Load(u, pos, m)
    decreases u
  {
    match u
    case Rec(cs) =>
      forall i | 0 <= i < |cs| ensures Load(cs[i], pos + [i], m') == Load(cs[i], pos + [i], m) {
        SameBelow(pos, m, m', i);
        SameLoad(cs[i], pos + [i], m, m');
      }
    case Arr(cs) =>
      forall i | 0 <= i < |cs| ensures Load(cs[i], pos + [i], m') == Load(cs[i], pos + [i], m) {
        SameBelow(pos, m, m', i);
        SameLoad(cs[i], pos + [i], m, m');
      }
    case _ => assert pos + [] == pos;
  }

  lemma SameBelow(pos: Position, m: Objects, m': Objects, i: nat)
    requires m.Keys == m'.Keys
    requires forall q: Position {:trigger pos + q} | pos + q in m :: m'[pos + q] == m[pos + q]
    ensures forall q: Position {:trigger pos + [i] + q} | pos + [i] + q in m :: m'[pos + [i] + q] == m[pos + [i] + q]
  {
    forall q: Position | pos + [i] + q in m ensures m'[pos + [i] + q] == m[pos + [i] + q] {
      assert pos + [i] + q == pos + ([i] + q);
    }
  }

  /** Clearing in place shows as clearing the whole value. */
  lemma {:induction false} ClearInPlace(ty: Type, c: Cell, parts: Path, pos: Position, m: Objects, m': Objects)
    requires Fits(ty, c) && Cleared(ty, c, parts, pos, m, m')
    ensures Load(ClearCell(ty, c, parts), pos, m') == Clear(ty, Load(c, pos, m), parts)
    decreases ty, 0
  {
    assert pos + [] == pos;
    if parts == [] {
      SameLoad(c, pos, m, m');
    } else {
      var v := Load(c, pos, m);
      match ty
      case StructT(fs) =>
        assert Clear(ty, v, parts) == ClearIn(ty, v, parts);
        forall i | 0 <= i < |fs|
          ensures Load(ClearCell(ty, c, parts), pos, m').fields[i] == ClearIn(ty, v, parts).fields[i]
        {
          ClearedField(fs, c, parts, pos, m, m', i);
          TouchInPlace(FieldHit(fs, parts[0], i), fs[i].ty, c.fields[i], parts[1..], pos + [i], m, m');
        }
      case ArrayT(n, e) =>
        ClearOfArray(n, e, v, parts);
        forall i | 0 <= i < n
          ensures Load(ClearCell(ty, c, parts), pos, m').elems[i] == ClearElems(e, v, parts).elems[i]
        {
          ClearedElem(n, e, c, parts, pos, m, m', i);
          TouchInPlace(IndexHit(parts[0], i), e, c.elems[i], parts[1..], pos + [i], m, m');
        }
      case PrimT(_) =>
      case _ =>
        ClearNil(ty, parts);
    }
  }

  lemma ClearOfArray(n: nat, e: Type, v: Value, parts: Path)
    requires parts != []
    ensures Clear(ArrayT(n, e), v, parts) == ClearElems(e, v, parts)
  {
    assert Clear(ArrayT(n, e), v, parts) == ClearIn(ArrayT(n, e), v, parts);
  }

  lemma ClearNil(ty: Type, parts: Path)
    ensures Clear(ty, Nil, parts) == Nil
  {
    match ty
    case SliceT(e) => assert parts != [] ==> Clear(ty, Nil, parts) == ClearElems(e, Nil, parts);
    case ArrayT(_, e) => assert parts != [] ==> Clear(ty, Nil, parts) == ClearElems(e, Nil, parts);
    case _ =>
  }

  lemma {:induction false} TouchInPlace(hit: bool, ty: Type, c: Cell, rest: Path, pos: Position, m: Objects, m': Objects)
    requires Fits(ty, c) && Cleared(ty, c, if hit then rest else [], pos, m, m')
    ensures Load(TouchCell(hit, ty, c, rest), pos, m') == Touch(hit, ty, Load(c, pos, m), rest)
    decreases ty, 1
  {
    if !hit {
      SameLoad(c, pos, m, m');
    } else if rest == [] {
      LoadZero(ty, pos, m');
    } else {
      ClearInPlace(ty, c, rest, pos, m, m');
    }
  }

  // ----- what others see -----

  /** What clearing `parts` from the by-value part `x` does to a value that shares its
      objects: it is cleared behind the references that `x` holds. */
  function Beyond(ty: Type, x: Cell, parts: Path, v: Value): Value
    decreases ty
  {
    if parts == [] then v
    else if x.Held? then Clear(ty, v, parts)
    else match ty
      case StructT(fs) =>
        if x.Rec? && |x.fields| == |fs| && v.Struct? && |v.fields| == |fs| then
          Struct(seq(|fs|, i requires 0 <= i < |fs| =>
            if FieldHit(fs, parts[0], i) then Beyond(fs[i].ty, x.fields[i], parts[1..], v.fields[i]) else v.fields[i]))
        else v
      case ArrayT(_, e) =>
        if x.Arr? && v.List? && |v.elems| == |x.elems| then
          List(seq(|v.elems|, i requires 0 <= i < |v.elems| =>
            if IndexHit(parts[0], i) then Beyond(e, x.elems[i], parts[1..], v.elems[i]) else v.elems[i]))
        else v
      case _ => v
  }

  /** Whatever by-value part `u` shares the objects sees just that. */
  lemma {:induction false} SharedClear(ty: Type, u: Cell, x: Cell, parts: Path, pos: Position, m: Objects, m': Objects)
    requires Fits(ty, u) && Fits(ty, x) && Cleared(ty, x, parts, pos, m, m')
    ensures Load(u, pos, m') == Beyond(ty, x, parts, Load(u, pos, m))
    decreases ty
  {
    assert pos + [] == pos;
    if parts == [] {
      SameLoad(u, pos, m, m');
    } else {
      match ty
      case StructT(fs) =>
        forall i | 0 <= i < |fs| ensures Load(u, pos, m').fields[i] == Beyond(ty, x, parts, Load(u, pos, m)).fields[i] {
          ClearedField(fs, x, parts, pos, m, m', i);
          SharedClear(fs[i].ty, u.fields[i], x.fields[i], if FieldHit(fs, parts[0], i) then parts[1..] else [], pos + [i], m, m');
        }
      case ArrayT(n, e) =>
        forall i | 0 <= i < n ensures Load(u, pos, m').elems[i] == Beyond(ty, x, parts, Load(u, pos, m)).elems[i] {
          ClearedElem(n, e, x, parts, pos, m, m', i);
          SharedClear(e, u.elems[i], x.elems[i], if IndexHit(parts[0], i) then parts[1..] else [], pos + [i], m, m');
        }
      case PrimT(_) =>
      case _ => ClearNil(ty, parts);
    }
  }

  /** A by-value part without references shows nothing. */
  lemma {:induction false} BeyondBlank(ty: Type, parts: Path, v: Value)
    ensures Beyond(ty, ZeroCell(ty), parts, v) == v
    decreases ty
  {
    if parts != [] {
      match ty
      case StructT(fs) =>
        if v.Struct? && |v.fields| == |fs| {
          forall i | 0 <= i < |fs| ensures Beyond(fs[i].ty, ZeroCell(fs[i].ty), parts[1..], v.fields[i]) == v.fields[i] {
            BeyondBlank(fs[i].ty, parts[1..], v.fields[i]);
          }
        }
      case ArrayT(n, e) =>
        if v.List? && |v.elems| == n {
          forall i | 0 <= i < n ensures Beyond(e, ZeroCell(e), parts[1..], v.elems[i]) == v.elems[i] {
            BeyondBlank(e, parts[1..], v.elems[i]);
          }
        }
      case _ =>
    }
  }

  lemma {:induction false} BeyondZero(ty: Type, x: Cell, parts: Path)
    ensures Beyond(ty, x, parts, Zero(ty)) == Zero(ty)
    decreases ty
  {
    if parts != [] {
      if x.Held? {
        ZeroStays(ty, parts);
      } else {
        match ty
        case StructT(fs) =>
          if x.Rec? && |x.fields| == |fs| {
            forall i | 0 <= i < |fs| ensures Beyond(ty, x, parts, Zero(ty)).fields[i] == Zero(ty).fields[i] {
              BeyondZero(fs[i].ty, x.fields[i], parts[1..]);
            }
          }
        case ArrayT(n, e) =>
          if x.Arr? && |x.elems| == n {
            forall i | 0 <= i < n ensures Beyond(ty, x, parts, Zero(ty)).elems[i] == Zero(ty).elems[i] {
              BeyondZero(e, x.elems[i], parts[1..]);
            }
          }
        case _ =>
      }
    }
  }

  /** It commutes with every clearing of the value. */
  lemma {:induction false} BeyondCommutes(ty: Type, x: Cell, parts: Path, v: Value, q: Path)
    ensures Clear(ty, Beyond(ty, x, parts, v), q) == Beyond(ty, x, parts, Clear(ty, v, q))
    decreases ty, 1
  {
    if parts != [] && q != [] {
      if x.Held? {
        Commute(ty, v, parts, q);
      } else {
        match ty
        case StructT(fs) => BeyondCommutesFields(fs, x, parts, v, q);
        case ArrayT(n, e) => BeyondCommutesElems(n, e, x, parts, v, q);
        case _ =>
      }
    }
  }

  lemma {:induction false} BeyondCommutesFields(fs: seq<Field>, x: Cell, parts: Path, v: Value, q: Path)
    requires parts != [] && q != [] && !x.Held?
    ensures var ty := StructT(fs); Clear(ty, Beyond(ty, x, parts, v), q) == Beyond(ty, x, parts, Clear(ty, v, q))
    decreases StructT(fs), 0
  {
    var ty := StructT(fs);
    assert Clear(ty, v, q) == ClearIn(ty, v, q) && Clear(ty, Beyond(ty, x, parts, v), q) == ClearIn(ty, Beyond(ty, x, parts, v), q);
    if x.Rec? && |x.fields| == |fs| && v.Struct? && |v.fields| == |fs| {
      var left, right := ClearIn(ty, Beyond(ty, x, parts, v), q), Beyond(ty, x, parts, ClearIn(ty, v, q));
      forall i | 0 <= i < |fs| ensures left.fields[i] == right.fields[i] {
        BeyondCommutesTouch(fs[i].ty, x.fields[i], if FieldHit(fs, parts[0], i) then parts[1..] else [], v.fields[i], FieldHit(fs, q[0], i), q[1..]);
      }
    }
  }

  lemma {:induction false} BeyondCommutesElems(n: nat, e: Type, x: Cell, parts: Path, v: Value, q: Path)
    requires parts != [] && q != [] && !x.Held?
    ensures var ty := ArrayT(n, e); Clear(ty, Beyond(ty, x, parts, v), q) == Beyond(ty, x, parts, Clear(ty, v, q))
    decreases ArrayT(n, e), 0
  {
    var ty := ArrayT(n, e);
    ClearOfArray(n, e, v, q);
    ClearOfArray(n, e, Beyond(ty, x, parts, v), q);
    if x.Arr? && v.List? && |v.elems| == |x.elems| {
      var left, right := ClearElems(e, Beyond(ty, x, parts, v), q), Beyond(ty, x, parts, ClearElems(e, v, q));
      forall i | 0 <= i < |v.elems| ensures left.elems[i] == right.elems[i] {
        BeyondCommutesTouch(e, x.elems[i], if IndexHit(parts[0], i) then parts[1..] else [], v.elems[i], IndexHit(q[0], i), q[1..]);
      }
    }
  }

  lemma {:induction false} BeyondCommutesTouch(ty: Type, x: Cell, parts: Path, v: Value, hit: bool, q: Path)
    ensures Touch(hit, ty, Beyond(ty, x, parts, v), q) == Beyond(ty, x, parts, Touch(hit, ty, v, q))
    decreases ty, 2
  {
    BeyondZero(ty, x, parts);
    BeyondCommutes(ty, x, parts, v, q);
  }

  /** It does nothing to a value already cleared of the path. */
  lemma {:induction false} BeyondCleared(ty: Type, x: Cell, parts: Path, v: Value)
    requires Clear(ty, v, parts) == v
    ensures Beyond(ty, x, parts, v) == v
    decreases ty
  {
    if parts != [] && !x.Held? {
      match ty
      case StructT(fs) =>
        if x.Rec? && |x.fields| == |fs| && v.Struct? && |v.fields| == |fs| {
          assert Clear(ty, v, parts) == ClearIn(ty, v, parts);
          forall i | 0 <= i < |fs| ensures Beyond(ty, x, parts, v).fields[i] == v.fields[i] {
            assert Touch(FieldHit(fs, parts[0], i), fs[i].ty, v.fields[i], parts[1..]) == v.fields[i];
            if FieldHit(fs, parts[0], i) {
              BeyondCleared(fs[i].ty, x.fields[i], parts[1..], v.fields[i]);
            }
          }
        }
      case ArrayT(n, e) =>
        if x.Arr? && v.List? && |v.elems| == |x.elems| {
          ClearOfArray(n, e, v, parts);
          forall i | 0 <= i < |v.elems| ensures Beyond(ty, x, parts, v).elems[i] == v.elems[i] {
            assert Touch(IndexHit(parts[0], i), e, v.elems[i], parts[1..]) == v.elems[i];
            if IndexHit(parts[0], i) {
              BeyondCleared(e, x.elems[i], parts[1..], v.elems[i]);
            }
          }
        }
      case _ =>
    }
  }

  // ----- whole values have their types -----

  ghost predicate TypedAt(ty: Type, pos: Position, m: Objects) {
    forall q: Position {:trigger pos + q} | pos + q in m && RefAt(ty, q).Some? :: HasType(m[pos + q], RefAt(ty, q).value)
  }

  lemma {:induction false} LoadTypedAt(ty: Type, c: Cell, pos: Position, m: Objects)
    requires Fits(ty, c) && TypedAt(ty, pos, m)
    ensures HasType(Load(c, pos, m), ty)
    decreases ty
  {
    assert pos + [] == pos;
    match ty
    case StructT(fs) =>
      forall i | 0 <= i < |fs| ensures HasType(Load(c, pos, m).fields[i], fs[i].ty) {
        TypedBelow(ty, fs[i].ty, pos, i, m);
        LoadTypedAt(fs[i].ty, c.fields[i], pos + [i], m);
      }
    case ArrayT(n, e) =>
      forall i | 0 <= i < n ensures HasType(Load(c, pos, m).elems[i], e) {
        TypedBelow(ty, e, pos, i, m);
        LoadTypedAt(e, c.elems[i], pos + [i], m);
      }
    case _ =>
  }

  lemma TypedBelow(ty: Type, part: Type, pos: Position, i: nat, m: Objects)
    requires TypedAt(ty, pos, m)
    requires match ty case StructT(fs) => i < |fs| && part == fs[i].ty case ArrayT(n, e) => i < n && part == e case _ => false
    ensures TypedAt(part, pos + [i], m)
  {
    forall q: Position | pos + [i] + q in m && RefAt(part, q).Some? ensures HasType(m[pos + [i] + q], RefAt(part, q).value) {
      assert pos + [i] + q == pos + ([i] + q) && ([i] + q)[1..] == q;
    }
  }

  lemma LoadTyped(ty: Type, c: Cell, m: Objects)
    requires Fits(ty, c) && Typed(ty, m)
    ensures HasType(Load(c, [], m), ty)
  {
    forall q: Position | [] + q in m && RefAt(ty, q).Some? ensures HasType(m[[] + q], RefAt(ty, q).value) {
      assert [] + q == q;
    }
    LoadTypedAt(ty, c, [], m);
  }
}
