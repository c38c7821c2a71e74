// The values the plugin exchanges with Terraform, as far as the modelled code looks into them, and the
// two foreign conversions the code relies on: cty_to_native and CtyType.validate.
module CtyValues {
  import opened Options

  datatype Prim = PBool(b: bool) | PNum(n: real) | PStr(s: string)

  datatype PrimKind = KBool | KNum | KStr

  datatype Type =
    | TPrim(kind: PrimKind)
    | TList(elem: Type)
    | TSet(elem: Type)
    | TMap(elem: Type)
    | TTuple(elems: seq<Type>)
    | TObj(attrs: map<string, Type>)

  datatype Value = Value(ty: Type, body: Body, marks: set<string>)

  // Lists, tuples and sets carry an ordered payload, maps and objects a keyed one.
  datatype Body =
    | Unknown
    | Null
    | Leaf(p: Prim)
    | Elems(elems: seq<Value>)
    | Fields(fields: map<string, Value>)

  // A plan as plain Python data, in which a CtyValue can stand anywhere.
  datatype Native =
    | NNone
    | NPrim(p: Prim)
    | NList(items: seq<Native>)
    | NTuple(items: seq<Native>)
    | NDict(entries: map<string, Native>)
    | NCty(v: Value)

  predicate KindOf(p: Prim, k: PrimKind) {
    match k
    case KBool => p.PBool?
    case KNum => p.PNum?
    case KStr => p.PStr?
  }

  predicate WF(v: Value) {
    match v.body
    case Unknown => true
    case Null => true
    case Leaf(p) => v.ty.TPrim? && KindOf(p, v.ty.kind)
    case Elems(es) =>
      && (forall i :: 0 <= i < |es| ==> WF(es[i]))
      && (match v.ty
          case TList(t) => forall i :: 0 <= i < |es| ==> es[i].ty == t
          case TSet(t) => forall i :: 0 <= i < |es| ==> es[i].ty == t
          case TTuple(ts) => |ts| == |es| && forall i :: 0 <= i < |es| ==> es[i].ty == ts[i]
          case _ => false)
    case Fields(fs) =>
      && (forall k :: k in fs ==> WF(fs[k]))
      && (match v.ty
          case TMap(t) => forall k :: k in fs ==> fs[k].ty == t
          case TObj(ts) => fs.Keys == ts.Keys && forall k :: k in fs ==> fs[k].ty == ts[k]
          case _ => false)
  }

  function Unmark(v: Value): Value {
    match v.body
    case Elems(es) => Value(v.ty, Elems(seq(|es|, i requires 0 <= i < |es| => Unmark(es[i]))), {})
    case Fields(fs) => Value(v.ty, Fields(map k | k in fs :: Unmark(fs[k])), {})
    case _ => v.(marks := {})
  }

  predicate WhollyKnown(v: Value) {
    match v.body
    case Unknown => false
    case Elems(es) => forall i :: 0 <= i < |es| ==> WhollyKnown(es[i])
    case Fields(fs) => forall k :: k in fs ==> WhollyKnown(fs[k])
    case _ => true
  }

  predicate NoNulls(v: Value) {
    match v.body
    case Null => false
    case Elems(es) => forall i :: 0 <= i < |es| ==> NoNulls(es[i])
    case Fields(fs) => forall k :: k in fs ==> NoNulls(fs[k])
    case _ => true
  }

  // Every unknown, at any depth, turned into a null.
  function Settle(v: Value): Value {
    match v.body
    case Unknown => v.(body := Null)
    case Elems(es) => v.(body := Elems(seq(|es|, i requires 0 <= i < |es| => Settle(es[i]))))
    case Fields(fs) => v.(body := Fields(map k | k in fs :: Settle(fs[k])))
    case _ => v
  }

  // cty_to_native: an unknown at any depth comes out as None.
  function ToNative(v: Value): Native {
    match v.body
    case Unknown => NNone
    case Null => NNone
    case Leaf(p) => NPrim(p)
    case Elems(es) =>
      var items := seq(|es|, i requires 0 <= i < |es| => ToNative(es[i]));
      if v.ty.TTuple? then NTuple(items) else NList(items)
    case Fields(fs) => NDict(map k | k in fs :: ToNative(fs[k]))
  }

  function Entry(m: map<string, Native>, k: string): Native {
    if k in m then m[k] else NNone
  }

  // CtyType.validate: None is null, a CtyValue of the type stands for itself, an object may leave
  // attributes out but not add any.
  function Validate(ty: Type, n: Native): Option<Value>
    decreases ty, n
  {
    match n
    case NNone => Some(Value(ty, Null, {}))
    case NCty(v) => if v.ty == ty then Some(v) else None
    case NPrim(p) => if ty.TPrim? && KindOf(p, ty.kind) then Some(Value(ty, Leaf(p), {})) else None
    case NList(items) => ValidateItems(ty, items)
    case NTuple(items) => ValidateItems(ty, items)
    case NDict(m) =>
      (match ty
       case TMap(t) =>
         if forall k :: k in m ==> Validate(t, m[k]).Some?
         then Some(Value(ty, Fields(map k | k in m :: Validate(t, m[k]).value), {})) else None
       case TObj(ts) =>
         if m.Keys <= ts.Keys && forall k :: k in ts ==> Validate(ts[k], Entry(m, k)).Some?
         then Some(Value(ty, Fields(map k | k in ts :: Validate(ts[k], Entry(m, k)).value), {})) else None
       case _ => None)
  }

  function ValidateItems(ty: Type, items: seq<Native>): Option<Value>
    decreases ty, items
  {
    match ty
    case TList(t) =>
      if forall i :: 0 <= i < |items| ==> Validate(t, items[i]).Some?
      then Some(Value(ty, Elems(seq(|items|, i requires 0 <= i < |items| => Validate(t, items[i]).value)), {}))
      else None
    case TSet(t) =>
      if forall i :: 0 <= i < |items| ==> Validate(t, items[i]).Some?
      then Some(Value(ty, Elems(seq(|items|, i requires 0 <= i < |items| => Validate(t, items[i]).value)), {}))
      else None
    case TTuple(ts) =>
      if |ts| == |items| && forall i :: 0 <= i < |items| ==> Validate(ts[i], items[i]).Some?
      then Some(Value(ty, Elems(seq(|items|, i requires 0 <= i < |items| => Validate(ts[i], items[i]).value)), {}))
      else None
    case _ => None
  }

  // ------------------------------------------------------------------ laws

  lemma {:induction false} UnmarkIdempotent(v: Value)
    ensures Unmark(Unmark(v)) == Unmark(v)
    decreases v
  {
    match v.body
    case Elems(es) =>
      forall i | 0 <= i < |es| ensures Unmark(Unmark(es[i])) == Unmark(es[i]) { UnmarkIdempotent(es[i]); }
      assert Unmark(Unmark(v)).body.elems == Unmark(v).body.elems;
    case Fields(fs) =>
      forall k | k in fs ensures Unmark(Unmark(fs[k])) == Unmark(fs[k]) { UnmarkIdempotent(fs[k]); }
      assert Unmark(Unmark(v)).body.fields == Unmark(v).body.fields;
    case _ =>
  }

  // Settling keeps types and shape, and leaves nothing unknown.
  lemma {:induction false} SettleKnown(v: Value)
    requires WF(v)
    ensures WF(Settle(v)) && WhollyKnown(Settle(v))
    decreases v
  {
    match v.body
    case Elems(es) =>
      forall i | 0 <= i < |es| ensures WF(Settle(es[i])) && WhollyKnown(Settle(es[i])) { SettleKnown(es[i]); }
    case Fields(fs) =>
      forall k | k in fs ensures WF(Settle(fs[k])) && WhollyKnown(Settle(fs[k])) { SettleKnown(fs[k]); }
    case _ =>
  }

  // A value and its settled form agree, marks aside, exactly when nothing in it was unknown.
  lemma {:induction false} SettleSame(v: Value)
    ensures Unmark(Settle(v)) == Unmark(v) <==> WhollyKnown(v)
    decreases v
  {
    match v.body
    case Elems(es) =>
      forall i | 0 <= i < |es|
        ensures Unmark(Settle(es[i])) == Unmark(es[i]) <==> WhollyKnown(es[i])
      {
        SettleSame(es[i]);
      }
      var a, b := Unmark(Settle(v)).body.elems, Unmark(v).body.elems;
      assert forall i :: 0 <= i < |es| ==> a[i] == Unmark(Settle(es[i])) && b[i] == Unmark(es[i]);
      assert a == b <==> forall i :: 0 <= i < |es| ==> a[i] == b[i];
    case Fields(fs) =>
      forall k | k in fs ensures Unmark(Settle(fs[k])) == Unmark(fs[k]) <==> WhollyKnown(fs[k]) { SettleSame(fs[k]); }
      var a, b := Unmark(Settle(v)).body.fields, Unmark(v).body.fields;
      assert a.Keys == fs.Keys == b.Keys;
      assert forall k :: k in fs ==> a[k] == Unmark(Settle(fs[k])) && b[k] == Unmark(fs[k]);
      assert a == b <==> forall k :: k in fs ==> a[k] == b[k];
    case _ =>
  }

  // Down to native data and back loses the marks and every unknown, and nothing else.
  lemma {:induction false} NativeRoundTrip(v: Value)
    requires WF(v)
    ensures Validate(v.ty, ToNative(v)) == Some(Unmark(Settle(v)))
    decreases v
  {
    match v.body
    case Elems(es) =>
      var items := seq(|es|, i requires 0 <= i < |es| => ToNative(es[i]));
      forall i | 0 <= i < |es| ensures Validate(es[i].ty, items[i]) == Some(Unmark(Settle(es[i]))) {
        NativeRoundTrip(es[i]);
      }
      ItemsRoundTrip(v, items);
    case Fields(fs) =>
      var m := ToNative(v).entries;
      forall k | k in fs ensures Validate(fs[k].ty, m[k]) == Some(Unmark(Settle(fs[k]))) {
        NativeRoundTrip(fs[k]);
      }
      FieldsRoundTrip(v, m);
    case _ =>
  }

  lemma {:induction false} ItemsRoundTrip(v: Value, items: seq<Native>)
    requires WF(v) && v.body.Elems? && |items| == |v.body.elems|
    requires forall i :: 0 <= i < |items| ==>
      Validate(v.body.elems[i].ty, items[i]) == Some(Unmark(Settle(v.body.elems[i])))
    ensures ValidateItems(v.ty, items) == Some(Unmark(Settle(v)))
  {
    var r := ValidateItems(v.ty, items);
    assert r.Some?;
    assert r.value.body.elems == Unmark(Settle(v)).body.elems;
  }

  lemma {:induction false} FieldsRoundTrip(v: Value, m: map<string, Native>)
    requires WF(v) && v.body.Fields? && m.Keys == v.body.fields.Keys
    requires forall k :: k in m ==> Validate(v.body.fields[k].ty, m[k]) == Some(Unmark(Settle(v.body.fields[k])))
    ensures Validate(v.ty, NDict(m)) == Some(Unmark(Settle(v)))
  {
    var r := Validate(v.ty, NDict(m));
    assert r.Some?;
    assert r.value.body.fields == Unmark(Settle(v)).body.fields;
  }

  // So the round trip is exact precisely for values with nothing unknown in them.
  lemma NativeRoundTripExact(v: Value)
    requires WF(v)
    ensures Validate(v.ty, ToNative(v)) == Some(Unmark(v)) <==> WhollyKnown(v)
  {
    NativeRoundTrip(v);
    SettleSame(v);
  }

  ghost predicate WFNative(n: Native) {
    match n
    case NCty(v) => WF(v)
    case NList(items) => forall i :: 0 <= i < |items| ==> WFNative(items[i])
    case NTuple(items) => forall i :: 0 <= i < |items| ==> WFNative(items[i])
    case NDict(m) => forall k :: k in m ==> WFNative(m[k])
    case _ => true
  }

  // A primitive validates as its own kind only.
  lemma {:induction false} PrimitivesKeepTheirKind(kind: PrimKind, p: Prim)
    ensures Validate(TPrim(kind), NPrim(p)).Some? <==>
      (kind.KBool? && p.PBool?) || (kind.KNum? && p.PNum?) || (kind.KStr? && p.PStr?)
  {
  }

  // What validates is a well-formed value of the type.
  lemma {:induction false} ValidateWF(ty: Type, n: Native)
    requires WFNative(n)
    ensures Validate(ty, n).Some? ==> WF(Validate(ty, n).value) && Validate(ty, n).value.ty == ty
    decreases ty, n
  {
    match n
    case NList(items) => ItemsWF(ty, items, n);
    case NTuple(items) => ItemsWF(ty, items, n);
    case NDict(m) =>
      if ty.TMap? {
        forall k | k in m && Validate(ty.elem, m[k]).Some?
          ensures WF(Validate(ty.elem, m[k]).value) && Validate(ty.elem, m[k]).value.ty == ty.elem
        {
          ValidateWF(ty.elem, m[k]);
        }
      } else if ty.TObj? {
        forall k | k in ty.attrs && Validate(ty.attrs[k], Entry(m, k)).Some?
          ensures WF(Validate(ty.attrs[k], Entry(m, k)).value)
          ensures Validate(ty.attrs[k], Entry(m, k)).value.ty == ty.attrs[k]
        {
          ValidateWF(ty.attrs[k], Entry(m, k));
        }
      }
    case _ =>
  }

  lemma {:induction false} ItemsWF(ty: Type, items: seq<Native>, n: Native)
    requires (n == NList(items) || n == NTuple(items)) && WFNative(n)
    ensures Validate(ty, n).Some? ==> WF(Validate(ty, n).value) && Validate(ty, n).value.ty == ty
    decreases ty, n, 0
  {
    var r := ValidateItems(ty, items);
    assert r == Validate(ty, n);
    if ty.TList? || ty.TSet? {
      assert r.Some? ==> forall i :: 0 <= i < |items| ==> r.value.body.elems[i] == Validate(ty.elem, items[i]).value;
      forall i | 0 <= i < |items| && Validate(ty.elem, items[i]).Some?
        ensures WF(Validate(ty.elem, items[i]).value) && Validate(ty.elem, items[i]).value.ty == ty.elem
      {
        ValidateWF(ty.elem, items[i]);
      }
    } else if ty.TTuple? && |ty.elems| == |items| {
      forall i | 0 <= i < |items| && Validate(ty.elems[i], items[i]).Some?
        ensures WF(Validate(ty.elems[i], items[i]).value) && Validate(ty.elems[i], items[i]).value.ty == ty.elems[i]
      {
        ValidateWF(ty.elems[i], items[i]);
      }
    }
  }
}
