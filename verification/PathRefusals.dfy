/** When the clearer returns an error and when reflection panics, told from the
    locations the path leads to and not from the way the code walks. */
module PathRefusals {
  import opened Text
  import opened PathSyntax
  import opened Values
  import opened PathMatch
  import opened PathWalk

  // ----- errors -----

  /** The segment leads nowhere: no such field, no such index, or no parts at all. A nil
      pointer and a missing key are no errors. */
  predicate Stuck(ty: Type, v: Value, part: string) {
    if ty.PtrT? && !v.Ptr? then false
    else
      var x := if ty.PtrT? then v.pointee else v;
      match Pointed(ty)
      case StructT(fs) => part != "*" && forall i | 0 <= i < |fs| :: !Hits(ty, part, FieldAt(i))
      case MapT(_) => false
      case SliceT(_) => part != "*" && forall i | 0 <= i < |Elems(x)| :: !Hits(ty, part, IndexAt(i))
      case ArrayT(_, _) => part != "*" && forall i | 0 <= i < |Elems(x)| :: !Hits(ty, part, IndexAt(i))
      case _ => true
  }

  /** The path leads to `loc` without wildcards, and its next segment leads nowhere. */
  predicate LeadsNowhere(ty: Type, v: Value, parts: Path, loc: Location) {
    && |loc| < |parts| && "*" !in parts[..|loc|] && Matches(ty, v, parts[..|loc|], loc)
    && At(ty, v, loc).Some? && Stuck(At(ty, v, loc).value.ty, At(ty, v, loc).value.v, parts[|loc|])
  }

  /** The same, one step after another. */
  predicate StuckAt(ty: Type, v: Value, parts: Path, loc: Location)
    decreases |loc|
  {
    |loc| < |parts| &&
    if loc == [] then Stuck(ty, v, parts[0])
    else
      && parts[0] != "*" && Hits(ty, parts[0], loc[0])
      && var part := Part(ty, v, loc[0]); part.Some? && StuckAt(part.value.ty, part.value.v, parts[1..], loc[1..])
  }

  lemma {:induction false} StuckMeaning(ty: Type, v: Value, parts: Path, loc: Location)
    ensures StuckAt(ty, v, parts, loc) <==> LeadsNowhere(ty, v, parts, loc)
    decreases |loc|
  {
    if loc != [] && |loc| < |parts| {
      var part, n := Part(ty, v, loc[0]), |loc|;
      assert parts[..n][0] == parts[0] && parts[..n][1..] == parts[1..][..n - 1] && parts[1..][n - 1] == parts[n];
      assert parts[..n] == [parts[0]] + parts[1..][..n - 1];
      if part.Some? {
        StuckMeaning(part.value.ty, part.value.v, parts[1..], loc[1..]);
      }
    }
  }

  /** The one child a segment that is no wildcard leads to. */
  function Child(ty: Type, v: Value, part: string): Option<Selector> {
    if ty.PtrT? && !v.Ptr? then None
    else
      var x := if ty.PtrT? then v.pointee else v;
      match Pointed(ty)
      case StructT(fs) =>
        var at := FindField(fs, part);
        if at.Some? then Some(FieldAt(at.value)) else None
      case MapT(_) => if x.Map? && part in x.entries then Some(KeyAt(part)) else None
      case SliceT(_) => ElemAt(x, part)
      case ArrayT(_, _) => ElemAt(x, part)
      case _ => None
  }

  function ElemAt(x: Value, part: string): Option<Selector> {
    var at := Atoi(part);
    if at.Some? && 0 <= at.value < |Elems(x)| then Some(IndexAt(at.value)) else None
  }

  /** How an error comes about at one segment. */
  lemma FailsByChild(ty: Type, v: Value, parts: Path)
    requires HasType(v, ty) && parts != []
    ensures Fails(ty, v, parts) <==>
            if Stuck(ty, v, parts[0]) then true
            else if parts[0] == "*" then false
            else
              var sel := Child(ty, v, parts[0]);
              sel.Some? && Part(ty, v, sel.value).Some? && Fails(Part(ty, v, sel.value).value.ty, Part(ty, v, sel.value).value.v, parts[1..])
  {
    if !(ty.PtrT? && !v.Ptr?) {
      var x := if ty.PtrT? then v.pointee else v;
      match Pointed(ty)
      case StructT(fs) =>
        var at := FindField(fs, parts[0]);
        assert parts[0] != "*" ==> forall i | 0 <= i < |fs| :: Hits(ty, parts[0], FieldAt(i)) <==> at == Some(i);
      case SliceT(e) =>
        FailsByElem(ty, x, parts);
        assert FailsIn(Pointed(ty), x, parts) == FailsElem(e, x, parts);
      case ArrayT(_, e) =>
        FailsByElem(ty, x, parts);
        assert FailsIn(Pointed(ty), x, parts) == FailsElem(e, x, parts);
      case _ =>
    }
  }

  lemma FailsByElem(ty: Type, x: Value, parts: Path)
    requires parts != [] && (Pointed(ty).SliceT? || Pointed(ty).ArrayT?)
    ensures parts[0] != "*" ==>
              ((exists i | 0 <= i < |Elems(x)| :: Hits(ty, parts[0], IndexAt(i))) <==> ElemAt(x, parts[0]).Some?)
    ensures parts[0] != "*" && ElemAt(x, parts[0]).Some? ==> Hits(ty, parts[0], ElemAt(x, parts[0]).value)
  {
    var at := Atoi(parts[0]);
    if at.Some? && 0 <= at.value < |Elems(x)| {
      assert parts[0] != "*" ==> Hits(ty, parts[0], IndexAt(at.value));
    }
  }

  /** It is the one the segment matches. */
  lemma ChildIsHit(ty: Type, v: Value, part: string, sel: Selector)
    requires HasType(v, ty) && part != "*" && Part(ty, v, sel).Some?
    ensures Hits(ty, part, sel) <==> Child(ty, v, part) == Some(sel)
  {
  }

  lemma {:induction false} FailsSomewhere(ty: Type, v: Value, parts: Path) returns (loc: Location)
    requires HasType(v, ty) && Fails(ty, v, parts)
    ensures StuckAt(ty, v, parts, loc)
    decreases |parts|
  {
    FailsByChild(ty, v, parts);
    if Stuck(ty, v, parts[0]) {
      loc := [];
    } else {
      var sel := Child(ty, v, parts[0]).value;
      var part := Part(ty, v, sel).value;
      PartTyped(ty, v, sel);
      ChildIsHit(ty, v, parts[0], sel);
      var rest := FailsSomewhere(part.ty, part.v, parts[1..]);
      loc := [sel] + rest;
      assert loc[1..] == rest;
    }
  }

  lemma {:induction false} StuckFails(ty: Type, v: Value, parts: Path, loc: Location)
    requires HasType(v, ty) && StuckAt(ty, v, parts, loc)
    ensures Fails(ty, v, parts)
    decreases |loc|
  {
    FailsByChild(ty, v, parts);
    if loc != [] {
      var part := Part(ty, v, loc[0]).value;
      PartTyped(ty, v, loc[0]);
      ChildIsHit(ty, v, parts[0], loc[0]);
      StuckFails(part.ty, part.v, parts[1..], loc[1..]);
    }
  }

  /** The code returns an error exactly if the path leads, without wildcards, to a place
      where its next segment leads nowhere. */
  lemma FailsExactly(ty: Type, v: Value, parts: Path)
    requires HasType(v, ty)
    ensures Fails(ty, v, parts) <==> exists loc :: LeadsNowhere(ty, v, parts, loc)
  {
    if Fails(ty, v, parts) {
      var loc := FailsSomewhere(ty, v, parts);
      StuckMeaning(ty, v, parts, loc);
      assert LeadsNowhere(ty, v, parts, loc);
    } else {
      forall loc ensures !LeadsNowhere(ty, v, parts, loc) {
        StuckMeaning(ty, v, parts, loc);
        if StuckAt(ty, v, parts, loc) {
          StuckFails(ty, v, parts, loc);
        }
      }
    }
  }

  // ----- refused writes -----

  /** One step on: what reflection lets the code do there. */
  function Enter(a: Access, ty: Type): Access {
    if ty.PtrT? then a.Behind() else a
  }

  function Step(a: Access, ty: Type, sel: Selector): Access {
    var b := Enter(a, ty);
    match (Pointed(ty), sel)
    case (StructT(fs), FieldAt(i)) => if i < |fs| then b.Field(fs[i]) else b
    case (MapT(_), KeyAt(_)) => b.InMap()
    case (SliceT(_), IndexAt(_)) => b.InSlice()
    case (ArrayT(_, _), IndexAt(_)) => b.InArray()
    case _ => b
  }

  predicate Accepts(a: Access, ty: Type, sel: Selector) {
    if Pointed(ty).MapT? then Enter(a, ty).Open() else Step(a, ty, sel).Settable()
  }

  /** Whether a write to the location is accepted. */
  predicate MayWrite(a: Access, ty: Type, loc: Location)
    requires loc != []
    decreases |loc|
  {
    if |loc| == 1 then Accepts(a, ty, loc[0]) else MayWrite(Step(a, ty, loc[0]), PartType(ty, loc[0]), loc[1..])
  }

  /** The path matches a location at which writes are refused. */
  predicate RefusedAt(ty: Type, v: Value, parts: Path, a: Access, loc: Location) {
    |loc| == |parts| && loc != [] && Matches(ty, v, parts, loc) && !MayWrite(a, ty, loc)
  }

  /** A child that makes the code panic. */
  predicate Trips(ty: Type, v: Value, parts: Path, a: Access, sel: Selector)
    requires parts != []
  {
    && Hits(ty, parts[0], sel) && Part(ty, v, sel).Some?
    && var part := Part(ty, v, sel).value;
       if |parts| == 1 then !Accepts(a, ty, sel) else Panics(part.ty, part.v, parts[1..], Step(a, ty, sel))
  }

  lemma PanicsByChild(ty: Type, v: Value, parts: Path, a: Access) returns (sel: Selector)
    requires HasType(v, ty) && Panics(ty, v, parts, a)
    ensures parts != [] && Trips(ty, v, parts, a, sel)
  {
    var x, b := if ty.PtrT? then v.pointee else v, Enter(a, ty);
    match Pointed(ty)
    case StructT(fs) =>
      var i :| 0 <= i < |fs| && FieldHit(fs, parts[0], i) && Refused(fs[i].ty, x.fields[i], parts[1..], b.Field(fs[i]), b.Field(fs[i]).Settable());
      sel := FieldAt(i);
    case MapT(e) =>
      var k :| k in x.entries && KeyHit(parts[0], k) && Refused(e, x.entries[k], parts[1..], b.InMap(), b.Open());
      sel := KeyAt(k);
    case SliceT(e) =>
      assert PanicsElem(e, x, parts, b.InSlice());
      var i :| 0 <= i < |Elems(x)| && IndexHit(parts[0], i) && Refused(e, Elems(x)[i], parts[1..], b.InSlice(), b.InSlice().Settable());
      sel := IndexAt(i);
    case ArrayT(_, e) =>
      assert PanicsElem(e, x, parts, b.InArray());
      var i :| 0 <= i < |Elems(x)| && IndexHit(parts[0], i) && Refused(e, Elems(x)[i], parts[1..], b.InArray(), b.InArray().Settable());
      sel := IndexAt(i);
  }

  lemma ChildPanics(ty: Type, v: Value, parts: Path, a: Access, sel: Selector)
    requires HasType(v, ty) && parts != [] && Trips(ty, v, parts, a, sel)
    ensures Panics(ty, v, parts, a)
  {
    var x, b := if ty.PtrT? then v.pointee else v, Enter(a, ty);
    match Pointed(ty)
    case StructT(fs) =>
      assert Refused(fs[sel.i].ty, x.fields[sel.i], parts[1..], b.Field(fs[sel.i]), b.Field(fs[sel.i]).Settable());
    case MapT(e) =>
      assert KeyHit(parts[0], sel.k) && Refused(e, x.entries[sel.k], parts[1..], b.InMap(), b.Open());
    case SliceT(e) =>
      assert Refused(e, Elems(x)[sel.i], parts[1..], b.InSlice(), b.InSlice().Settable());
      assert PanicsElem(e, x, parts, b.InSlice());
    case ArrayT(_, e) =>
      assert Refused(e, Elems(x)[sel.i], parts[1..], b.InArray(), b.InArray().Settable());
      assert PanicsElem(e, x, parts, b.InArray());
  }

  lemma {:induction false} PanicsSomewhere(ty: Type, v: Value, parts: Path, a: Access) returns (loc: Location)
    requires HasType(v, ty) && Panics(ty, v, parts, a)
    ensures RefusedAt(ty, v, parts, a, loc)
    decreases |parts|
  {
    var sel := PanicsByChild(ty, v, parts, a);
    var part := Part(ty, v, sel).value;
    PartTyped(ty, v, sel);
    if |parts| == 1 {
      loc := [sel];
    } else {
      var rest := PanicsSomewhere(part.ty, part.v, parts[1..], Step(a, ty, sel));
      loc := [sel] + rest;
      assert loc[1..] == rest && part.ty == PartType(ty, sel);
    }
  }

  lemma {:induction false} RefusedPanics(ty: Type, v: Value, parts: Path, a: Access, loc: Location)
    requires HasType(v, ty) && RefusedAt(ty, v, parts, a, loc)
    ensures Panics(ty, v, parts, a)
    decreases |loc|
  {
    var part := Part(ty, v, loc[0]).value;
    PartTyped(ty, v, loc[0]);
    assert part.ty == PartType(ty, loc[0]);
    if |loc| > 1 {
      RefusedPanics(part.ty, part.v, parts[1..], Step(a, ty, loc[0]), loc[1..]);
    }
    ChildPanics(ty, v, parts, a, loc[0]);
  }

  // ----- which locations can be written, step by step -----

  function TypeAt(ty: Type, loc: Location): Type
    decreases |loc|
  {
    if loc == [] then ty else TypeAt(PartType(ty, loc[0]), loc[1..])
  }

  function AccessAt(a: Access, ty: Type, loc: Location): Access
    decreases |loc|
  {
    if loc == [] then a else AccessAt(Step(a, ty, loc[0]), PartType(ty, loc[0]), loc[1..])
  }

  /** The type of the value that step `k` goes into. */
  function Whose(ty: Type, loc: Location, k: nat): Type
    requires k <= |loc|
  {
    TypeAt(ty, loc[..k])
  }

  lemma {:induction false} OneStepOn(a: Access, ty: Type, loc: Location, k: nat)
    requires k < |loc|
    ensures Whose(ty, loc, k + 1) == PartType(Whose(ty, loc, k), loc[k])
    ensures AccessAt(a, ty, loc[..k + 1]) == Step(AccessAt(a, ty, loc[..k]), Whose(ty, loc, k), loc[k])
    decreases k
  {
    if k > 0 {
      OneStepOn(Step(a, ty, loc[0]), PartType(ty, loc[0]), loc[1..], k - 1);
      assert loc[..k + 1][1..] == loc[1..][..k] && loc[..k][1..] == loc[1..][..k - 1];
    } else {
      assert loc[..1][1..] == [] && loc[..1][0] == loc[0];
      assert TypeAt(ty, loc[..1]) == TypeAt(PartType(ty, loc[0]), []);
      assert AccessAt(a, ty, loc[..1]) == AccessAt(Step(a, ty, loc[0]), PartType(ty, loc[0]), []);
    }
  }

  lemma {:induction false} MayWriteAtEnd(a: Access, ty: Type, loc: Location)
    requires loc != []
    ensures var n := |loc| - 1; MayWrite(a, ty, loc) == Accepts(AccessAt(a, ty, loc[..n]), Whose(ty, loc, n), loc[n])
    decreases |loc|
  {
    var n := |loc| - 1;
    if n > 0 {
      MayWriteAtEnd(Step(a, ty, loc[0]), PartType(ty, loc[0]), loc[1..]);
      assert loc[..n][1..] == loc[1..][..n - 1];
    } else {
      assert loc[..0] == [];
    }
  }

  /** Step `k` goes into an unexported field. */
  predicate Unexported(ty: Type, loc: Location, k: nat)
    requires k < |loc|
  {
    var t := Pointed(Whose(ty, loc, k));
    t.StructT? && loc[k].FieldAt? && loc[k].i < |t.fields| && !t.fields[loc[k].i].exported
  }

  /** An embedded one, and the next step goes into one of its fields. */
  predicate Promoted(ty: Type, loc: Location, k: nat)
    requires k < |loc| && Unexported(ty, loc, k)
  {
    && Pointed(Whose(ty, loc, k)).fields[loc[k].i].embedded
    && k + 1 < |loc|
    && var t := Pointed(Whose(ty, loc, k + 1)); t.StructT? && loc[k + 1].FieldAt? && loc[k + 1].i < |t.fields|
  }

  predicate OverMap(ty: Type, loc: Location, k: nat)
    requires k < |loc|
  {
    Pointed(Whose(ty, loc, k)).MapT? && loc[k].KeyAt?
  }

  /** Step `k` follows a pointer or goes into a slice. */
  predicate OverReference(ty: Type, loc: Location, k: nat)
    requires k < |loc|
  {
    Whose(ty, loc, k).PtrT? || (Pointed(Whose(ty, loc, k)).SliceT? && loc[k].IndexAt?)
  }

  /** Since step `k` a reference has been followed and no map entered. */
  predicate Addressed(ty: Type, loc: Location, k: nat)
    requires k < |loc|
  {
    OverReference(ty, loc, k) && forall m | k <= m < |loc| :: !OverMap(ty, loc, m)
  }

  /** What can be written: nothing under an unexported field, except fields promoted from
      an embedded one; and then the entries of a map, and what a pointer or slice leads to
      without a map in between. */
  ghost predicate CanWrite(ty: Type, loc: Location)
    requires loc != []
  {
    && (forall k | 0 <= k < |loc| && Unexported(ty, loc, k) :: Promoted(ty, loc, k))
    && (OverMap(ty, loc, |loc| - 1) || exists k :: 0 <= k < |loc| && Addressed(ty, loc, k))
  }

  // ----- that is what the code can write -----

  /** Step `k` leaves a mark that stays, as far as the first `n` steps tell. */
  predicate LeavesMark(ty: Type, loc: Location, k: nat, n: nat)
    requires k < n <= |loc|
  {
    Unexported(ty, loc, k) &&
    (Pointed(Whose(ty, loc, k)).fields[loc[k].i].embedded ==> k + 1 < n && !Promoted(ty, loc, k))
  }

  ghost predicate Marked(ty: Type, loc: Location, n: nat)
    requires n <= |loc|
  {
    exists k :: 0 <= k < n && LeavesMark(ty, loc, k, n)
  }

  lemma MarkedNext(ty: Type, loc: Location, n: nat)
    requires n < |loc|
    ensures Marked(ty, loc, n + 1) <==>
            || Marked(ty, loc, n) || (Unexported(ty, loc, n) && !Pointed(Whose(ty, loc, n)).fields[loc[n].i].embedded)
            || (n > 0 && Unexported(ty, loc, n - 1) && !Promoted(ty, loc, n - 1))
  {
    if Marked(ty, loc, n) {
      var k :| 0 <= k < n && LeavesMark(ty, loc, k, n);
      assert LeavesMark(ty, loc, k, n + 1);
    }
    if Marked(ty, loc, n + 1) {
      var k :| 0 <= k < n + 1 && LeavesMark(ty, loc, k, n + 1);
      assert k < n - 1 ==> LeavesMark(ty, loc, k, n);
    }
    if Unexported(ty, loc, n) && !Pointed(Whose(ty, loc, n)).fields[loc[n].i].embedded {
      assert LeavesMark(ty, loc, n, n + 1);
    }
    if n > 0 && Unexported(ty, loc, n - 1) && !Promoted(ty, loc, n - 1) {
      assert LeavesMark(ty, loc, n - 1, n + 1);
    }
  }

  /** How a mark changes in one step. */
  lemma MarkNext(a: Access, ty: Type, sel: Selector)
    requires match (Pointed(ty), sel)
             case (StructT(fs), FieldAt(i)) => i < |fs|
             case (MapT(_), KeyAt(_)) => true
             case (SliceT(_), IndexAt(_)) => true
             case (ArrayT(_, _), IndexAt(_)) => true
             case _ => false
    ensures var mark := Step(a, ty, sel).mark;
            match Pointed(ty)
            case StructT(fs) =>
              mark == if a.mark.Sticky? then Sticky else if fs[sel.i].exported then Clean else if fs[sel.i].embedded then Embedded else Sticky
            case _ => mark == if a.mark.Clean? then Clean else Sticky
  {
  }

  /** The mark part of what the code may do. */
  lemma {:induction false} MarkAfter(ty: Type, loc: Location, n: nat)
    requires Fitting(ty, loc) && n <= |loc|
    ensures var mark := AccessAt(TOP, ty, loc[..n]).mark;
            && (mark.Sticky? <==> Marked(ty, loc, n))
            && (mark.Embedded? <==> !Marked(ty, loc, n) && n > 0 && Unexported(ty, loc, n - 1))
    decreases n
  {
    if n > 0 {
      MarkAfter(ty, loc, n - 1);
      OneStepOn(TOP, ty, loc, n - 1);
      MarkedNext(ty, loc, n - 1);
      assert StepFits(ty, loc, n - 1);
      MarkNext(AccessAt(TOP, ty, loc[..n - 1]), Whose(ty, loc, n - 1), loc[n - 1]);
      if n > 1 && Unexported(ty, loc, n - 2) && Pointed(Whose(ty, loc, n - 2)).fields[loc[n - 2].i].embedded {
        assert Promoted(ty, loc, n - 2) <==> Pointed(Whose(ty, loc, n - 1)).StructT?;
      } else if n > 1 && Unexported(ty, loc, n - 2) {
        assert LeavesMark(ty, loc, n - 2, n - 1);
      }
    } else {
      assert loc[..0] == [];
    }
  }

  /** And its value can be addressed. */
  ghost predicate HasAddress(ty: Type, loc: Location, n: nat)
    requires n <= |loc|
  {
    exists k | 0 <= k < n :: OverReference(ty, loc, k) && forall m | k <= m < n :: !OverMap(ty, loc, m)
  }

  /** The location is one of the type: every step fits what it goes into. */
  predicate StepFits(ty: Type, loc: Location, k: nat)
    requires k < |loc|
  {
    match (Pointed(Whose(ty, loc, k)), loc[k])
    case (StructT(fs), FieldAt(i)) => i < |fs|
    case (MapT(_), KeyAt(_)) => true
    case (SliceT(_), IndexAt(_)) => true
    case (ArrayT(_, _), IndexAt(_)) => true
    case _ => false
  }

  predicate Fitting(ty: Type, loc: Location) {
    forall k | 0 <= k < |loc| :: StepFits(ty, loc, k)
  }

  lemma {:induction false} MatchedFits(ty: Type, v: Value, parts: Path, loc: Location)
    requires |parts| == |loc| && Matches(ty, v, parts, loc)
    ensures Fitting(ty, loc)
    decreases |loc|
  {
    if loc != [] {
      var part := Part(ty, v, loc[0]).value;
      assert part.ty == PartType(ty, loc[0]);
      MatchedFits(part.ty, part.v, parts[1..], loc[1..]);
      forall k | 0 <= k < |loc| ensures StepFits(ty, loc, k) {
        if k > 0 {
          assert loc[..k][1..] == loc[1..][..k - 1];
          assert StepFits(part.ty, loc[1..], k - 1);
        } else {
          assert loc[..0] == [];
        }
      }
    }
  }

  /** The address part of what the code may do. */
  lemma {:induction false} AddressAfter(ty: Type, loc: Location, n: nat)
    requires Fitting(ty, loc) && n <= |loc|
    ensures AccessAt(TOP, ty, loc[..n]).addr <==> HasAddress(ty, loc, n)
    decreases n
  {
    if n > 0 {
      AddressAfter(ty, loc, n - 1);
      OneStepOn(TOP, ty, loc, n - 1);
      assert StepFits(ty, loc, n - 1);
      if OverMap(ty, loc, n - 1) {
        assert !HasAddress(ty, loc, n);
      } else if OverReference(ty, loc, n - 1) {
        assert forall m | n - 1 <= m < n :: !OverMap(ty, loc, m);
      } else {
        AddressStays(ty, loc, n - 1);
      }
    } else {
      assert loc[..0] == [];
    }
  }

  lemma AddressStays(ty: Type, loc: Location, n: nat)
    requires n < |loc| && !OverMap(ty, loc, n) && !OverReference(ty, loc, n)
    ensures HasAddress(ty, loc, n + 1) <==> HasAddress(ty, loc, n)
  {
    if HasAddress(ty, loc, n) {
      var k :| 0 <= k < n && OverReference(ty, loc, k) && forall m | k <= m < n :: !OverMap(ty, loc, m);
      assert forall m | k <= m < n + 1 :: !OverMap(ty, loc, m);
    }
    if HasAddress(ty, loc, n + 1) {
      var k :| 0 <= k < n + 1 && OverReference(ty, loc, k) && forall m | k <= m < n + 1 :: !OverMap(ty, loc, m);
      assert k < n;
    }
  }

  lemma CleanExactly(ty: Type, loc: Location)
    requires loc != []
    ensures !Marked(ty, loc, |loc|) && !Unexported(ty, loc, |loc| - 1) <==>
            forall k | 0 <= k < |loc| && Unexported(ty, loc, k) :: Promoted(ty, loc, k)
  {
    var n := |loc|;
    if !Marked(ty, loc, n) && !Unexported(ty, loc, n - 1) {
      forall k | 0 <= k < n && Unexported(ty, loc, k) ensures Promoted(ty, loc, k) {
        assert !LeavesMark(ty, loc, k, n);
      }
    }
  }

  lemma AddressedExactly(ty: Type, loc: Location)
    ensures HasAddress(ty, loc, |loc|) <==> exists k :: 0 <= k < |loc| && Addressed(ty, loc, k)
  {
    if HasAddress(ty, loc, |loc|) {
      var k :| 0 <= k < |loc| && OverReference(ty, loc, k) && forall m | k <= m < |loc| :: !OverMap(ty, loc, m);
      assert Addressed(ty, loc, k);
    }
    if exists k :: 0 <= k < |loc| && Addressed(ty, loc, k) {
      var k :| 0 <= k < |loc| && Addressed(ty, loc, k);
      assert OverReference(ty, loc, k) && forall m | k <= m < |loc| :: !OverMap(ty, loc, m);
    }
  }

  /** Both accounts of what can be written agree. */
  lemma WritableExactly(ty: Type, loc: Location)
    requires loc != [] && Fitting(ty, loc)
    ensures MayWrite(TOP, ty, loc) <==> CanWrite(ty, loc)
  {
    var n := |loc| - 1;
    assert loc[..n + 1] == loc;
    MayWriteAtEnd(TOP, ty, loc);
    OneStepOn(TOP, ty, loc, n);
    MarkAfter(ty, loc, n + 1);
    AddressAfter(ty, loc, n + 1);
    CleanExactly(ty, loc);
    assert StepFits(ty, loc, n);
    AddressedExactly(ty, loc);
  }

  /** A location the path matches, at which nothing can be written. */
  ghost predicate Forbidden(ty: Type, v: Value, parts: Path, loc: Location) {
    |loc| == |parts| && loc != [] && Matches(ty, v, parts, loc) && !CanWrite(ty, loc)
  }

  /** The code panics exactly if the path matches a location that cannot be written. */
  lemma PanicsExactly(ty: Type, v: Value, parts: Path)
    requires HasType(v, ty)
    ensures Panics(ty, v, parts, TOP) <==> exists loc :: Forbidden(ty, v, parts, loc)
  {
    if Panics(ty, v, parts, TOP) {
      var loc := PanicsSomewhere(ty, v, parts, TOP);
      MatchedFits(ty, v, parts, loc);
      WritableExactly(ty, loc);
      assert Forbidden(ty, v, parts, loc);
    } else {
      forall loc ensures !Forbidden(ty, v, parts, loc) {
        if Forbidden(ty, v, parts, loc) {
          MatchedFits(ty, v, parts, loc);
          WritableExactly(ty, loc);
          RefusedPanics(ty, v, parts, TOP, loc);
        }
      }
    }
  }
}
