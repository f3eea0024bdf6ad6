/** Typed values as the path clearer sees them through reflection, the zero
    value of every type, and what one path segment selects in a value. */
module Values {
  import opened Text

  /** `PrimT` stands for every kind the clearer cannot navigate into; `zero` is
      the text of that kind's zero value. Maps are keyed by strings. */
  datatype Type =
    | PrimT(zero: string)
    | StructT(fields: seq<Field>)
    | PtrT(elem: Type)
    | SliceT(elem: Type)
    | ArrayT(len: nat, elem: Type)
    | MapT(elem: Type)

  datatype Field = Field(name: string, tag: string, exported: bool, embedded: bool, ty: Type)

  /** `Nil` is the nil pointer, slice or map. `List` is a non-nil slice, or an array. */
  datatype Value =
    | Prim(text: string)
    | Struct(fields: seq<Value>)
    | Nil
    | Ptr(pointee: Value)
    | List(elems: seq<Value>)
    | Map(entries: map<string, Value>)

  predicate HasType(v: Value, ty: Type)
    decreases ty
  {
    match ty
    case PrimT(_) => v.Prim?
    case StructT(fs) =>
      v.Struct? && |v.fields| == |fs| && forall i | 0 <= i < |fs| :: HasType(v.fields[i], fs[i].ty)
    case PtrT(e) => v.Nil? || (v.Ptr? && HasType(v.pointee, e))
    case SliceT(e) => v.Nil? || (v.List? && forall i | 0 <= i < |v.elems| :: HasType(v.elems[i], e))
    case ArrayT(n, e) => v.List? && |v.elems| == n && forall i | 0 <= i < n :: HasType(v.elems[i], e)
    case MapT(e) => v.Nil? || (v.Map? && forall k | k in v.entries :: HasType(v.entries[k], e))
  }

  /** reflect.Zero. */
  function Zero(ty: Type): Value {
    match ty
    case PrimT(z) => Prim(z)
    case StructT(fs) => Struct(seq(|fs|, i requires 0 <= i < |fs| => Zero(fs[i].ty)))
    case ArrayT(n, e) => List(seq(n, _ => Zero(e)))
    case _ => Nil
  }

  lemma {:induction false} ZeroTyped(ty: Type)
    ensures HasType(Zero(ty), ty)
  {
    match ty
    case StructT(fs) =>
      forall i | 0 <= i < |fs| ensures HasType(Zero(fs[i].ty), fs[i].ty) {
        ZeroTyped(fs[i].ty);
      }
    case ArrayT(n, e) => ZeroTyped(e);
    case _ =>
  }

  // ----- what a segment selects -----

  const WILDCARD := "*"

  /** The name in a json tag: what precedes its first comma. */
  function TagName(tag: string): string {
    Split(tag, ',')[0]
  }

  predicate Named(f: Field, name: string) {
    f.exported && ((f.tag != "" && TagName(f.tag) == name) || f.name == name)
  }

  /** What a field answers to, for names without a comma: the tag up to its first comma,
      or the Go name; and nothing if it is not exported. */
  lemma NamedMeaning(f: Field, name: string)
    requires ',' !in name
    ensures Named(f, name) <==>
            f.exported && (f.name == name || (f.tag == name && name != "") || exists options :: f.tag == name + ("," + options))
  {
    if f.exported && f.tag != "" {
      if ',' in f.tag {
        var i := FirstComma(f.tag);
        SplitStep(f.tag[..i], f.tag[i + 1..], ',');
        assert f.tag == f.tag[..i] + ([','] + f.tag[i + 1..]);
        assert TagName(f.tag) == f.tag[..i];
        assert TagName(f.tag) == name ==> f.tag == name + ("," + f.tag[i + 1..]);
      } else {
        SplitOne(f.tag, ',');
      }
      forall options | f.tag == name + ("," + options) ensures TagName(f.tag) == name {
        SplitStep(name, options, ',');
      }
    }
  }

  lemma {:induction false} FirstComma(s: string) returns (i: nat)
    requires ',' in s
    ensures i < |s| && s[i] == ',' && ',' !in s[..i]
  {
    if s[0] == ',' {
      i := 0;
    } else {
      var k := FirstComma(s[1..]);
      i := k + 1;
      assert s[..i] == [s[0]] + s[1..][..k];
    }
  }

  /** The first field that answers to `name`, by tag or by Go name. */
  function FindField(fs: seq<Field>, name: string): (r: Option<nat>)
    ensures r.Some? ==> r.value < |fs| && Named(fs[r.value], name)
    ensures forall i | 0 <= i < |fs| && (r.None? || i < r.value) :: !Named(fs[i], name)
  {
    if fs == [] then None
    else if Named(fs[0], name) then Some(0)
    else
      var r := FindField(fs[1..], name);
      assert forall i | 0 < i < |fs| :: fs[i] == fs[1..][i - 1];
      if r.None? then None else Some(r.value + 1)
  }

  method FindStructFieldByJSONTag(fs: seq<Field>, name: string) returns (r: Option<nat>)
    ensures r == FindField(fs, name)
  {
    for i := 0 to |fs|
      invariant forall j | 0 <= j < i :: !Named(fs[j], name)
    {
      var sf := fs[i];
      if !sf.exported {
        continue;
      }
      if sf.tag != "" {
        var tagName := Split(sf.tag, ',')[0];
        if tagName == name {
          return Some(i);
        }
      }
      if sf.name == name {
        return Some(i);
      }
    }
    return None;
  }

  predicate FieldHit(fs: seq<Field>, part: string, i: nat) {
    part == WILDCARD || FindField(fs, part) == Some(i)
  }

  predicate KeyHit(part: string, key: string) {
    part == WILDCARD || part == key
  }

  predicate IndexHit(part: string, i: nat) {
    part == WILDCARD || Atoi(part) == Some(i as int)
  }

  /** The least index a segment selects, if it selects any. */
  function LeastHit(part: string): (r: Option<nat>)
    ensures r.Some? ==> IndexHit(part, r.value)
    ensures forall i: nat | IndexHit(part, i) :: r.Some? && r.value <= i
  {
    if part == WILDCARD then Some(0)
    else
      var at := Atoi(part);
      if at.Some? && at.value >= 0 then Some(at.value) else None
  }
}
